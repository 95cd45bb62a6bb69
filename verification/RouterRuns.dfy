/** Whole runs of the account router under a clock that never goes back. */
module RouterRuns {
  import opened Router

  datatype Op =
    | Ask(conversation: string, provider: string, available: seq<string>, now: nat)
    | RateLimited(account: string, duration: int, now: nat)
    | CircuitOpened(account: string, until: nat, now: nat)
    | Reset(account: string, now: nat)
    | Enquire(account: string, now: nat)
    | Prefer(provider: string, account: string, now: nat)

  function Do(s: Table, op: Op): (Table, Pick) {
    match op
    case Ask(conversation, provider, available, now) => DoPick(s, conversation, provider, available, now)
    case RateLimited(account, duration, now) => (DoRateLimited(s, account, duration, now), NOTHING)
    case CircuitOpened(account, until, now) => (DoCircuitOpen(s, account, until), NOTHING)
    case Reset(account, now) => (DoReset(s, account), NOTHING)
    case Enquire(account, now) => (Enquired(s, account, now), NOTHING)
    case Prefer(provider, account, now) => (DoPrefer(s, provider, account), NOTHING)
  }

  /** Operations, the tables before and after each, and the picks. */
  datatype Run = Run(ops: seq<Op>, tables: seq<Table>, picks: seq<Pick>)
  {
    ghost predicate Shaped() { |tables| == |ops| + 1 && |picks| == |ops| }
  }

  ghost predicate Link(run: Run, k: nat)
    requires run.Shaped() && k < |run.ops|
  {
    (run.tables[k + 1], run.picks[k]) == Do(run.tables[k], run.ops[k])
  }

  /** A run from any table. */
  ghost predicate IsRun(run: Run) {
    && run.Shaped()
    && (forall k :: 0 <= k < |run.ops| ==> Link(run, k))
    && (forall i, j :: 0 <= i < j < |run.ops| ==> run.ops[i].now <= run.ops[j].now)
  }

  /** The operation lifts the account's blocks. */
  predicate Lifts(op: Op, account: string) {
    (op.Reset? && op.account == account) || (op.Prefer? && op.account == account && op.provider != "")
  }

  predicate HoldsUntil(m: Until, account: string, until: nat) { account in m && until <= m[account] }

  /** Nothing but a reset or a preference takes a circuit away before its end. */
  lemma CircuitStep(s: Table, op: Op, account: string, until: nat)
    requires HoldsUntil(s.circuitOpen, account, until) && op.now <= until && !Lifts(op, account)
    ensures HoldsUntil(Do(s, op).0.circuitOpen, account, until)
  {
    if op.Ask? && op.available != [] {
      PickMeans(s, op.conversation, op.provider, op.available, op.now);
      assert InForce(s.circuitOpen, account, op.now);
    }
  }

  lemma CircuitStepAt(run: Run, k: nat, account: string, until: nat)
    requires IsRun(run) && k < |run.ops|
    requires HoldsUntil(run.tables[k].circuitOpen, account, until) && run.ops[k].now <= until
    requires !Lifts(run.ops[k], account)
    ensures HoldsUntil(run.tables[k + 1].circuitOpen, account, until)
  {
    assert Link(run, k);
    CircuitStep(run.tables[k], run.ops[k], account, until);
  }

  lemma {:induction false} CircuitHolds(run: Run, i: nat, j: nat, account: string, until: nat)
    requires IsRun(run) && i <= j <= |run.ops|
    requires HoldsUntil(run.tables[i].circuitOpen, account, until)
    requires forall k :: i <= k < j ==> run.ops[k].now <= until && !Lifts(run.ops[k], account)
    ensures HoldsUntil(run.tables[j].circuitOpen, account, until)
  {
    if i < j {
      CircuitHolds(run, i, j - 1, account, until);
      CircuitStepAt(run, j - 1, account, until);
    }
  }

  /** An account whose circuit is open until T is returned by no pick at or before T, unless it is
      reset or preferred in between: later marks never shorten the circuit. */
  lemma OpenCircuitIsNeverPicked(run: Run, i: nat, j: nat)
    requires IsRun(run) && i < j < |run.ops| && run.ops[i].CircuitOpened? && run.ops[j].Ask?
    requires run.ops[i].account != "" && run.ops[i].until != 0 && run.ops[j].now <= run.ops[i].until
    requires forall k :: i < k < j ==> !Lifts(run.ops[k], run.ops[i].account)
    ensures run.picks[j].account != run.ops[i].account
  {
    var account, until := run.ops[i].account, run.ops[i].until;
    assert Link(run, i) && Link(run, j);
    CircuitHolds(run, i + 1, j, account, until);
    Answer(run.tables[j], run.ops[j]);
  }

  lemma Answer(s: Table, op: Op)
    requires op.Ask?
    ensures var r := Do(s, op).1; r.account == "" || !Blocked(s, r.account, op.now)
  {
    if op.available != [] {
      PickNeverBlocked(s, op.conversation, op.provider, op.available, op.now);
    }
  }

  /** A later, shorter rate limit replaces a longer one. */
  predicate Shortens(op: Op, account: string, until: nat) {
    op.RateLimited? && op.account == account && op.duration > 0 && op.now + op.duration < until
  }

  lemma CooldownStep(s: Table, op: Op, account: string, until: nat)
    requires HoldsUntil(s.cooldown, account, until) && op.now <= until && !Lifts(op, account)
    requires !Shortens(op, account, until)
    ensures HoldsUntil(Do(s, op).0.cooldown, account, until)
  {
    if op.Ask? && op.available != [] {
      PickMeans(s, op.conversation, op.provider, op.available, op.now);
      assert InForce(s.cooldown, account, op.now);
    }
  }

  lemma {:induction false} CooldownHolds(run: Run, i: nat, j: nat, account: string, until: nat)
    requires IsRun(run) && i <= j <= |run.ops|
    requires HoldsUntil(run.tables[i].cooldown, account, until)
    requires forall k :: i <= k < j ==>
      run.ops[k].now <= until && !Lifts(run.ops[k], account) && !Shortens(run.ops[k], account, until)
    ensures HoldsUntil(run.tables[j].cooldown, account, until)
  {
    if i < j {
      CooldownHolds(run, i, j - 1, account, until);
      assert Link(run, j - 1);
      CooldownStep(run.tables[j - 1], run.ops[j - 1], account, until);
    }
  }

  /** A rate-limited account is returned by no pick in its cooldown, unless it is reset, preferred
      or marked again for a shorter time. */
  lemma CooldownIsRespected(run: Run, i: nat, j: nat)
    requires IsRun(run) && i < j < |run.ops| && run.ops[i].RateLimited? && run.ops[j].Ask?
    requires run.ops[i].account != "" && run.ops[i].duration > 0
    requires run.ops[j].now <= run.ops[i].now + run.ops[i].duration
    requires forall k :: i < k < j ==>
      && !Lifts(run.ops[k], run.ops[i].account)
      && !Shortens(run.ops[k], run.ops[i].account, run.ops[i].now + run.ops[i].duration)
    ensures run.picks[j].account != run.ops[i].account
  {
    var account, until := run.ops[i].account, run.ops[i].now + run.ops[i].duration;
    assert Link(run, i) && Link(run, j);
    CooldownHolds(run, i + 1, j, account, until);
    Answer(run.tables[j], run.ops[j]);
  }

  /** Unlike a circuit, a cooldown is cut short by a shorter one. */
  lemma CooldownCanShorten(s: Table)
    ensures var t := Do(Do(s, RateLimited("a", 100, 1)).0, RateLimited("a", 1, 2)).0;
      Blocked(t, "a", 4) <==> InForce(s.circuitOpen, "a", 4)
  {
  }

  // Stickiness.

  predicate BoundTo(s: Table, conversation: string, account: string) {
    conversation in s.sticky && s.sticky[conversation] == account
  }

  predicate Rebinds(op: Op, conversation: string) {
    (op.Ask? && op.conversation == conversation) || (op.Prefer? && op.provider != "" && op.account != "")
  }

  lemma BindingStep(s: Table, op: Op, conversation: string, account: string)
    requires BoundTo(s, conversation, account) && !Rebinds(op, conversation)
    ensures BoundTo(Do(s, op).0, conversation, account)
  {
    if op.Ask? && op.available != [] {
      PickMeans(s, op.conversation, op.provider, op.available, op.now);
    }
  }

  lemma {:induction false} BindingHolds(run: Run, i: nat, j: nat, conversation: string, account: string)
    requires IsRun(run) && i <= j <= |run.ops| && BoundTo(run.tables[i], conversation, account)
    requires forall k :: i <= k < j ==> !Rebinds(run.ops[k], conversation)
    ensures BoundTo(run.tables[j], conversation, account)
  {
    if i < j {
      BindingHolds(run, i, j - 1, conversation, account);
      assert Link(run, j - 1);
      BindingStep(run.tables[j - 1], run.ops[j - 1], conversation, account);
    }
  }

  /** A conversation stays with its account: its next pick returns the same one while that is
      available and not blocked, whatever other conversations do, until an explicit preference. */
  lemma PicksStick(run: Run, i: nat, j: nat)
    requires IsRun(run) && i < j < |run.ops| && run.ops[i].Ask? && run.ops[j].Ask?
    requires run.ops[i].conversation == run.ops[j].conversation
    requires run.ops[i].available != [] && !run.picks[i].allBlocked
    requires forall k :: i < k < j ==> !Rebinds(run.ops[k], run.ops[i].conversation)
    requires run.picks[i].account in run.ops[j].available
    requires !Blocked(run.tables[j], run.picks[i].account, run.ops[j].now)
    ensures run.picks[j] == run.picks[i]
  {
    var a, b := run.ops[i], run.ops[j];
    assert Link(run, i) && Link(run, j);
    PickMeans(run.tables[i], a.conversation, a.provider, a.available, a.now);
    BindingHolds(run, i + 1, j, a.conversation, run.picks[i].account);
    PickMeans(run.tables[j], b.conversation, b.provider, b.available, b.now);
  }

  // The provider's last account.

  predicate LastIs(s: Table, provider: string, account: string) {
    provider in s.lastUsed && s.lastUsed[provider] == account
  }

  /** The pick takes the first free account. */
  ghost predicate Takes(s: Table, op: Op) {
    op.Ask? && op.available != [] && TakesFree(s, op.conversation, op.provider, op.available, op.now)
  }

  /** The operation may change the provider's last account. */
  ghost predicate Renames(s: Table, op: Op, provider: string) {
    (Takes(s, op) && op.provider == provider) || (op.Prefer? && op.provider == provider && op.account != "")
  }

  lemma LastStep(s: Table, op: Op, provider: string, account: string)
    requires LastIs(s, provider, account) && !Renames(s, op, provider)
    ensures LastIs(Do(s, op).0, provider, account)
  {
    if op.Ask? && op.available != [] {
      PickMeans(s, op.conversation, op.provider, op.available, op.now);
    }
  }

  lemma {:induction false} LastHolds(run: Run, i: nat, j: nat, provider: string, account: string)
    requires IsRun(run) && i <= j <= |run.ops| && LastIs(run.tables[i], provider, account)
    requires forall k :: i <= k < j ==> !Renames(run.tables[k], run.ops[k], provider)
    ensures LastIs(run.tables[j], provider, account)
  {
    if i < j {
      LastHolds(run, i, j - 1, provider, account);
      assert Link(run, j - 1);
      LastStep(run.tables[j - 1], run.ops[j - 1], provider, account);
    }
  }

  /** After a pick that took the first free account, a conversation with the same provider and no
      usable binding gets that account while it can serve, until another such pick or a preference. */
  lemma LastPickServesNext(run: Run, i: nat, j: nat)
    requires IsRun(run) && i < j < |run.ops| && Takes(run.tables[i], run.ops[i]) && run.ops[j].Ask?
    requires run.ops[j].provider == run.ops[i].provider
    requires forall k :: i < k < j ==> !Renames(run.tables[k], run.ops[k], run.ops[i].provider)
    requires !Usable(run.tables[j].sticky, run.ops[j].conversation, run.tables[j], run.ops[j].available, run.ops[j].now)
    requires run.picks[i].account in run.ops[j].available
    requires !Blocked(run.tables[j], run.picks[i].account, run.ops[j].now)
    ensures run.picks[j] == Pick(run.picks[i].account, false, 0)
  {
    var a, b := run.ops[i], run.ops[j];
    assert Link(run, i) && Link(run, j);
    PickMeans(run.tables[i], a.conversation, a.provider, a.available, a.now);
    LastHolds(run, i + 1, j, a.provider, run.picks[i].account);
    PickMeans(run.tables[j], b.conversation, b.provider, b.available, b.now);
  }

  /** An explicit preference decides the next pick of every conversation with that provider. */
  lemma PreferenceIsHonoured(s: Table, prefer: Op, ask: Op)
    requires prefer.Prefer? && ask.Ask? && ask.provider == prefer.provider != "" && prefer.account != ""
    requires prefer.account in ask.available
    ensures Do(Do(s, prefer).0, ask).1 == Pick(prefer.account, false, 0)
  {
    PickMeans(Do(s, prefer).0, ask.conversation, ask.provider, ask.available, ask.now);
  }
}
