/** Routing conversations to accounts: sticky bindings, cooldowns and circuits. Zero is no time; each
    call reads the clock once. */
module Router {
  import opened Collections

  type Until = map<string, nat>

  /** The router's maps. */
  datatype Table = Table(sticky: map<string, string>, cooldown: Until, circuitOpen: Until, lastUsed: map<string,
                         string>)

  datatype Pick = Pick(account: string, allBlocked: bool, earliestReset: nat)

  const NOTHING := Pick("", false, 0)

  /** A block holds up to and including its end. */
  predicate InForce(m: Until, account: string, now: nat) { account in m && now <= m[account] }

  predicate Blocked(s: Table, account: string, now: nat) {
    InForce(s.cooldown, account, now) || InForce(s.circuitOpen, account, now)
  }

  /** The map without the account's entry, if that has ended. */
  function Lapsed(m: Until, account: string, now: nat): Until {
    if account in m && m[account] < now then m - {account} else m
  }

  /** Asking whether an account is blocked forgets its ended blocks; the circuit is not looked at
      while a cooldown holds. */
  function Asked(s: Table, account: string, now: nat): Table {
    if InForce(s.cooldown, account, now) then s
    else s.(cooldown := Lapsed(s.cooldown, account, now), circuitOpen := Lapsed(s.circuitOpen, account, now))
  }

  function AskedSticky(s: Table, conversation: string, available: seq<string>, now: nat): (Table, Option<string>) {
    if conversation !in s.sticky then (s, None)
    else
      var account := s.sticky[conversation];
      if account !in available then (s.(sticky := s.sticky - {conversation}), None)
      else (Asked(s, account, now), if Blocked(s, account, now) then None else Some(account))
  }

  function AskedLast(s: Table, provider: string, available: seq<string>, now: nat): (Table, Option<string>) {
    if provider !in s.lastUsed || s.lastUsed[provider] !in available then (s, None)
    else
      var account := s.lastUsed[provider];
      (Asked(s, account, now), if Blocked(s, account, now) then None else Some(account))
  }

  /** The accounts from the k-th on, until one is free. */
  function AskedFrom(s: Table, available: seq<string>, k: nat, now: nat): (Table, Option<string>)
    requires k <= |available|
    decreases |available| - k
  {
    if k == |available| then (s, None)
    else if Blocked(s, available[k], now) then AskedFrom(Asked(s, available[k], now), available, k + 1, now)
    else (Asked(s, available[k], now), Some(available[k]))
  }

  /** The smaller of two ends, zero standing for none. */
  function Sooner(earliest: nat, m: Until, account: string, now: nat): nat {
    if account in m && now < m[account] && (earliest == 0 || m[account] < earliest) then m[account] else earliest
  }

  function Earliest(s: Table, available: seq<string>, k: nat, now: nat): nat
    requires k <= |available|
  {
    if k == 0 then 0
    else
      var account := available[k - 1];
      Sooner(Sooner(Earliest(s, available, k - 1, now), s.cooldown, account, now), s.circuitOpen, account, now)
  }

  function DoPick(s: Table, conversation: string, provider: string, available: seq<string>, now: nat): (Table, Pick) {
    if available == [] then (s, NOTHING)
    else
      var (s1, bound) := AskedSticky(s, conversation, available, now);
      match bound
      case Some(account) => (s1, Pick(account, false, 0))
      case None =>
        var (s2, last) := AskedLast(s1, provider, available, now);
        match last
        case Some(account) => (s2.(sticky := s2.sticky[conversation := account]), Pick(account, false, 0))
        case None =>
          var (s3, free) := AskedFrom(s2, available, 0, now);
          match free
          case Some(account) =>
            (s3.(sticky := s3.sticky[conversation := account], lastUsed := s3.lastUsed[provider := account]),
             Pick(account, false, 0))
          case None => (s3, Pick("", true, Earliest(s3, available, |available|, now)))
  }

  function DoRateLimited(s: Table, account: string, cooldown: int, now: nat): Table {
    if account == "" || cooldown <= 0 then s else s.(cooldown := s.cooldown[account := now + cooldown])
  }

  function DoCircuitOpen(s: Table, account: string, until: nat): Table {
    if account == "" || until == 0 then s
    else if account in s.circuitOpen && s.circuitOpen[account] > until then s
    else s.(circuitOpen := s.circuitOpen[account := until])
  }

  function DoReset(s: Table, account: string): Table {
    if account == "" then s else s.(circuitOpen := s.circuitOpen - {account}, cooldown := s.cooldown - {account})
  }

  function DoPrefer(s: Table, provider: string, account: string): Table {
    if provider == "" || account == "" then s
    else Table(map[], s.cooldown - {account}, s.circuitOpen - {account}, s.lastUsed[provider := account])
  }

  /** Asking when a circuit closes forgets it once it has. */
  function Enquired(s: Table, account: string, now: nat): Table {
    s.(circuitOpen := Lapsed(s.circuitOpen, account, now))
  }

  class CodexAccountRouter {
    var sticky: map<string, string>
    var cooldown: Until
    var circuitOpen: Until
    var lastUsed: map<string, string>

    function State(): Table
      reads this
    {
      Table(sticky, cooldown, circuitOpen, lastUsed)
    }

    constructor ()
      ensures State() == Table(map[], map[], map[], map[])
    {
      sticky, cooldown, circuitOpen, lastUsed := map[], map[], map[], map[];
    }

    method IsCoolingDown(account: string, now: nat) returns (b: bool)
      modifies this`cooldown
      ensures b == InForce(old(cooldown), account, now) && cooldown == Lapsed(old(cooldown), account, now)
    {
      if account !in cooldown {
        return false;
      }
      if now > cooldown[account] {
        cooldown := cooldown - {account};
        return false;
      }
      return true;
    }

    method IsCircuitOpen(account: string, now: nat) returns (b: bool)
      modifies this`circuitOpen
      ensures b == InForce(old(circuitOpen), account, now) && circuitOpen == Lapsed(old(circuitOpen), account, now)
    {
      if account !in circuitOpen {
        return false;
      }
      if now > circuitOpen[account] {
        circuitOpen := circuitOpen - {account};
        return false;
      }
      return true;
    }

    method IsBlocked(account: string, now: nat) returns (b: bool)
      modifies this`cooldown, this`circuitOpen
      ensures b == Blocked(old(State()), account, now) && State() == Asked(old(State()), account, now)
    {
      b := IsCoolingDown(account, now);
      if !b {
        b := IsCircuitOpen(account, now);
      }
    }

    method EarliestUnblock(accounts: seq<string>, now: nat) returns (earliest: nat)
      ensures earliest == Earliest(State(), accounts, |accounts|, now)
    {
      earliest := 0;
      for i := 0 to |accounts|
        invariant earliest == Earliest(State(), accounts, i, now)
      {
        var acc := accounts[i];
        if acc in cooldown && cooldown[acc] > now {
          if earliest == 0 || cooldown[acc] < earliest {
            earliest := cooldown[acc];
          }
        }
        if acc in circuitOpen && circuitOpen[acc] > now {
          if earliest == 0 || circuitOpen[acc] < earliest {
            earliest := circuitOpen[acc];
          }
        }
      }
    }

    /** The first account, in order, that is not blocked. */
    method FirstFree(available: seq<string>, now: nat) returns (free: Option<string>)
      modifies this`cooldown, this`circuitOpen
      ensures (State(), free) == AskedFrom(old(State()), available, 0, now)
    {
      for i := 0 to |available|
        invariant AskedFrom(State(), available, i, now) == AskedFrom(old(State()), available, 0, now)
        invariant sticky == old(sticky) && lastUsed == old(lastUsed)
      {
        var blocked := IsBlocked(available[i], now);
        if !blocked {
          return Some(available[i]);
        }
      }
      return None;
    }

    method PickAccountDetailed(conversation: string, provider: string, available: seq<string>, now: nat)
      returns (r: Pick)
      modifies this
      ensures (State(), r) == DoPick(old(State()), conversation, provider, available, now)
    {
      if |available| == 0 {
        return NOTHING;
      }
      if conversation in sticky {
        var bound := sticky[conversation];
        if bound !in available {
          sticky := sticky - {conversation};
        } else {
          var blocked := IsBlocked(bound, now);
          if !blocked {
            return Pick(bound, false, 0);
          }
        }
      }
      if provider in lastUsed && lastUsed[provider] in available {
        var last := lastUsed[provider];
        var blocked := IsBlocked(last, now);
        if !blocked {
          sticky := sticky[conversation := last];
          return Pick(last, false, 0);
        }
      }
      var free := FirstFree(available, now);
      if free.Some? {
        sticky := sticky[conversation := free.value];
        lastUsed := lastUsed[provider := free.value];
        return Pick(free.value, false, 0);
      }
      var earliest := EarliestUnblock(available, now);
      return Pick("", true, earliest);
    }

    method PreferAccount(provider: string, account: string)
      modifies this
      ensures State() == DoPrefer(old(State()), provider, account)
    {
      if provider == "" || account == "" {
        return;
      }
      sticky := map[];
      cooldown := cooldown - {account};
      circuitOpen := circuitOpen - {account};
      lastUsed := lastUsed[provider := account];
    }

    method MarkRateLimited(account: string, duration: int, now: nat)
      modifies this`cooldown
      ensures State() == DoRateLimited(old(State()), account, duration, now)
    {
      if account == "" || duration <= 0 {
        return;
      }
      cooldown := cooldown[account := now + duration];
    }

    method MarkCircuitOpen(account: string, until: nat)
      modifies this`circuitOpen
      ensures State() == DoCircuitOpen(old(State()), account, until)
    {
      if account == "" || until == 0 {
        return;
      }
      if account in circuitOpen && circuitOpen[account] > until {
        return;
      }
      circuitOpen := circuitOpen[account := until];
    }

    method CircuitOpenUntil(account: string, now: nat) returns (until: nat)
      modifies this`circuitOpen
      ensures until == if InForce(old(circuitOpen), account, now) then old(circuitOpen)[account] else 0
      ensures State() == Enquired(old(State()), account, now)
    {
      if account !in circuitOpen {
        return 0;
      }
      until := circuitOpen[account];
      if now > until {
        circuitOpen := circuitOpen - {account};
        return 0;
      }
    }

    method ResetCircuit(account: string)
      modifies this
      ensures State() == DoReset(old(State()), account)
    {
      if account == "" {
        return;
      }
      circuitOpen := circuitOpen - {account};
      cooldown := cooldown - {account};
    }
  }

  // What one pick means.

  predicate AllBlocked(s: Table, available: seq<string>, now: nat) {
    forall i :: 0 <= i < |available| ==> Blocked(s, available[i], now)
  }

  /** The blocks that still hold are the same, with the same ends. */
  ghost predicate SameBlocks(m: Until, n: Until, now: nat) {
    forall a :: InForce(m, a, now) || InForce(n, a, now) ==> a in m && a in n && m[a] == n[a]
  }

  ghost predicate Alike(s: Table, t: Table, now: nat) {
    SameBlocks(s.cooldown, t.cooldown, now) && SameBlocks(s.circuitOpen, t.circuitOpen, now)
  }

  /** Asking forgets only what no later question sees. */
  lemma AskedIsAlike(s: Table, account: string, now: nat)
    ensures var t := Asked(s, account, now); Alike(s, t, now) && t.sticky == s.sticky && t.lastUsed == s.lastUsed
  {
  }

  /** And a block that has ended when its account was asked for is forgotten. */
  lemma EndedIsForgotten(s: Table, account: string, now: nat)
    ensures var t := Asked(s, account, now);
      && (account in t.cooldown ==> now <= t.cooldown[account])
      && (account in t.circuitOpen ==> now <= t.circuitOpen[account] || InForce(t.cooldown, account, now))
      && (InForce(s.cooldown, account, now) ==> t == s)
    ensures var t := Enquired(s, account, now);
      && (account in t.circuitOpen ==> now <= t.circuitOpen[account])
      && Alike(s, t, now) && t.cooldown == s.cooldown && t.sticky == s.sticky && t.lastUsed == s.lastUsed
  {
  }

  lemma AlikeAnswers(s: Table, t: Table, now: nat)
    requires Alike(s, t, now)
    ensures forall a :: Blocked(s, a, now) <==> Blocked(t, a, now)
  {
  }

  lemma {:induction false} AskedFromMeans(s: Table, available: seq<string>, k: nat, now: nat)
    requires k <= |available|
    ensures var (t, free) := AskedFrom(s, available, k, now);
      && Alike(s, t, now) && t.sticky == s.sticky && t.lastUsed == s.lastUsed
      && (free.None? <==> forall i :: k <= i < |available| ==> Blocked(s, available[i], now))
      && (free.Some? ==>
            exists i :: k <= i < |available| && IsFirstFree(s, available, k, i, now) && available[i] == free.value)
    decreases |available| - k
  {
    if k < |available| {
      var t := Asked(s, available[k], now);
      AskedIsAlike(s, available[k], now);
      if Blocked(s, available[k], now) {
        AlikeAnswers(s, t, now);
        AskedFromMeans(t, available, k + 1, now);
        var free := AskedFrom(t, available, k + 1, now).1;
        if free.Some? {
          var i :| k + 1 <= i < |available| && IsFirstFree(t, available, k + 1, i, now) && available[i] == free.value;
          assert IsFirstFree(s, available, k, i, now);
        }
      } else {
        assert IsFirstFree(s, available, k, k, now);
      }
    }
  }

  ghost predicate IsFirstFree(s: Table, available: seq<string>, k: nat, i: nat, now: nat)
    requires k <= i < |available|
  {
    !Blocked(s, available[i], now) && forall j :: k <= j < i ==> Blocked(s, available[j], now)
  }

  /** A usable binding: the map names an available account that is not blocked. */
  predicate Usable(m: map<string, string>, key: string, s: Table, available: seq<string>, now: nat) {
    key in m && m[key] in available && !Blocked(s, m[key], now)
  }

  ghost predicate SameBut(m: map<string, string>, n: map<string, string>, key: string) {
    forall c :: c != key ==> (c in n <==> c in m) && (c in m ==> n[c] == m[c])
  }

  lemma StickyMeans(s: Table, conversation: string, available: seq<string>, now: nat)
    ensures var (t, bound) := AskedSticky(s, conversation, available, now);
      && Alike(s, t, now) && t.lastUsed == s.lastUsed
      && (bound.Some? <==> Usable(s.sticky, conversation, s, available, now))
      && (bound.Some? ==> bound.value == s.sticky[conversation] && t.sticky == s.sticky)
      && (conversation in t.sticky <==> conversation in s.sticky && s.sticky[conversation] in available)
      && (conversation in t.sticky ==> t.sticky[conversation] == s.sticky[conversation])
      && SameBut(s.sticky, t.sticky, conversation)
  {
    if conversation in s.sticky {
      AskedIsAlike(s, s.sticky[conversation], now);
    }
  }

  lemma LastMeans(s: Table, provider: string, available: seq<string>, now: nat)
    ensures var (t, last) := AskedLast(s, provider, available, now);
      && Alike(s, t, now) && t.lastUsed == s.lastUsed && t.sticky == s.sticky
      && (last.Some? <==> Usable(s.lastUsed, provider, s, available, now))
      && (last.Some? ==> last.value == s.lastUsed[provider])
  {
    if provider in s.lastUsed {
      AskedIsAlike(s, s.lastUsed[provider], now);
    }
  }

  lemma {:induction false} AlikeEarliest(s: Table, t: Table, available: seq<string>, k: nat, now: nat)
    requires k <= |available| && Alike(s, t, now)
    ensures Earliest(s, available, k, now) == Earliest(t, available, k, now)
  {
    if k > 0 {
      AlikeEarliest(s, t, available, k - 1, now);
    }
  }

  /** Who is chosen among some accounts: the bound account while it can serve, else the provider's
      last one, else the first free one, else nobody. */
  ghost predicate Chosen(s: Table, conversation: string, provider: string, available: seq<string>, now: nat, r: Pick) {
    if Usable(s.sticky, conversation, s, available, now) then r == Pick(s.sticky[conversation], false, 0)
    else if Usable(s.lastUsed, provider, s, available, now) then r == Pick(s.lastUsed[provider], false, 0)
    else if AllBlocked(s, available, now) then r == Pick("", true, Earliest(s, available, |available|, now))
    else
      exists i :: 0 <= i < |available| && IsFirstFree(s, available, 0, i, now) && r == Pick(available[i], false, 0)
  }

  /** Only the picking conversation is bound anew, to the account it got; when all are blocked it
      keeps a binding to an available account only. */
  ghost predicate Bound(s: Table, t: Table, conversation: string, available: seq<string>, r: Pick) {
    && (!r.allBlocked ==> conversation in t.sticky && t.sticky[conversation] == r.account)
    && (r.allBlocked ==>
          (conversation in t.sticky <==> conversation in s.sticky && s.sticky[conversation] in available)
          && (conversation in t.sticky ==> t.sticky[conversation] == s.sticky[conversation]))
    && SameBut(s.sticky, t.sticky, conversation)
  }

  /** Neither the binding nor the provider's last account can serve, and some account is free. */
  ghost predicate TakesFree(s: Table, conversation: string, provider: string, available: seq<string>, now: nat) {
    && !Usable(s.sticky, conversation, s, available, now)
    && !Usable(s.lastUsed, provider, s, available, now)
    && !AllBlocked(s, available, now)
  }

  /** Such a pick, and no other, makes its account the provider's last one; no other provider's
      changes. */
  ghost predicate Remembered(s: Table, t: Table, takesFree: bool, provider: string, r: Pick) {
    && (takesFree ==> provider in t.lastUsed && t.lastUsed[provider] == r.account)
    && (!takesFree ==> t.lastUsed == s.lastUsed)
    && SameBut(s.lastUsed, t.lastUsed, provider)
  }

  lemma AlikeUsable(s: Table, t: Table, m: map<string, string>, key: string, available: seq<string>, now: nat)
    requires Alike(s, t, now)
    ensures Usable(m, key, s, available, now) <==> Usable(m, key, t, available, now)
    ensures AllBlocked(s, available, now) <==> AllBlocked(t, available, now)
    ensures forall i :: 0 <= i < |available| ==>
      (IsFirstFree(s, available, 0, i, now) <==> IsFirstFree(t, available, 0, i, now))
  {
    AlikeAnswers(s, t, now);
  }

  lemma AlikeTransitive(s: Table, t: Table, u: Table, now: nat)
    requires Alike(s, t, now) && Alike(t, u, now)
    ensures Alike(s, u, now)
  {
  }

  lemma PickMeans(s: Table, conversation: string, provider: string, available: seq<string>, now: nat)
    requires available != []
    ensures var (t, r) := DoPick(s, conversation, provider, available, now);
      && Chosen(s, conversation, provider, available, now, r)
      && Bound(s, t, conversation, available, r)
      && Remembered(s, t, TakesFree(s, conversation, provider, available, now), provider, r)
      && Alike(s, t, now)
  {
    var (s1, bound) := AskedSticky(s, conversation, available, now);
    StickyMeans(s, conversation, available, now);
    if bound.None? {
      AlikeUsable(s, s1, s.lastUsed, provider, available, now);
      var (s2, last) := AskedLast(s1, provider, available, now);
      LastMeans(s1, provider, available, now);
      AlikeTransitive(s, s1, s2, now);
      if last.None? {
        var (s3, free) := AskedFrom(s2, available, 0, now);
        AskedFromMeans(s2, available, 0, now);
        AlikeTransitive(s, s2, s3, now);
        AlikeUsable(s, s2, s.lastUsed, provider, available, now);
        AlikeEarliest(s, s3, available, |available|, now);
      }
    }
  }

  /** So a pick over some accounts fails exactly when all are blocked, and never returns a blocked one. */
  lemma PickNeverBlocked(s: Table, conversation: string, provider: string, available: seq<string>, now: nat)
    requires available != []
    ensures var r := DoPick(s, conversation, provider, available, now).1;
      && (r.allBlocked <==> AllBlocked(s, available, now))
      && (!r.allBlocked ==> r.account in available && !Blocked(s, r.account, now) && r.earliestReset == 0)
  {
    PickMeans(s, conversation, provider, available, now);
  }

  predicate Clean(s: Table, account: string) { account !in s.cooldown && account !in s.circuitOpen }

  lemma AskedIsClean(s: Table, account: string, now: nat)
    ensures !Blocked(s, account, now) ==> Clean(Asked(s, account, now), account)
  {
  }

  lemma {:induction false} FreeIsClean(s: Table, available: seq<string>, k: nat, now: nat)
    requires k <= |available|
    ensures var (t, free) := AskedFrom(s, available, k, now); free.Some? ==> Clean(t, free.value)
    decreases |available| - k
  {
    if k < |available| {
      AskedIsClean(s, available[k], now);
    }
    if k < |available| && Blocked(s, available[k], now) {
      FreeIsClean(Asked(s, available[k], now), available, k + 1, now);
    }
  }

  /** The account that is picked has no block left in the table, not even one that has ended. */
  lemma PickedIsClean(s: Table, conversation: string, provider: string, available: seq<string>, now: nat)
    requires available != []
    ensures var (t, r) := DoPick(s, conversation, provider, available, now); !r.allBlocked ==> Clean(t, r.account)
  {
    var (s1, bound) := AskedSticky(s, conversation, available, now);
    if bound.Some? {
      AskedIsClean(s, bound.value, now);
    } else {
      var (s2, last) := AskedLast(s1, provider, available, now);
      if last.Some? {
        AskedIsClean(s1, last.value, now);
        assert Clean(s2, last.value);
      } else {
        FreeIsClean(s2, available, 0, now);
        var (s3, free) := AskedFrom(s2, available, 0, now);
        assert free.Some? ==> Clean(s3, free.value);
      }
    }
  }

  /** Without accounts nothing is picked and nothing changes. */
  lemma NothingToPick(s: Table, conversation: string, provider: string, now: nat)
    ensures DoPick(s, conversation, provider, [], now) == (s, Pick("", false, 0))
  {
  }

  // What the marks do.

  ghost predicate OthersStay(s: Table, t: Table, account: string, now: nat) {
    forall a :: a != account ==> (Blocked(t, a, now) <==> Blocked(s, a, now))
  }

  /** A reset account is free at once, and a preferred one besides decides the provider's next pick;
      no other account's blocks change, and a reset touches no binding. */
  lemma ResetFrees(s: Table, provider: string, account: string, now: nat)
    requires account != ""
    ensures var t := DoReset(s, account);
      !Blocked(t, account, now) && OthersStay(s, t, account, now) && t.sticky == s.sticky && t.lastUsed == s.lastUsed
    ensures provider != "" ==>
      var t := DoPrefer(s, provider, account);
      && !Blocked(t, account, now) && OthersStay(s, t, account, now)
      && t.sticky == map[] && t.lastUsed == s.lastUsed[provider := account]
  {
  }

  /** No account, no time or no provider: nothing is marked. */
  lemma NothingIsMarked(s: Table, account: string, duration: int, until: nat, now: nat)
    ensures DoRateLimited(s, "", duration, now) == s
    ensures duration <= 0 ==> DoRateLimited(s, account, duration, now) == s
    ensures DoCircuitOpen(s, "", until) == s && DoCircuitOpen(s, account, 0) == s
    ensures DoReset(s, "") == s && DoPrefer(s, "", account) == s && DoPrefer(s, account, "") == s
  {
  }

  /** A cooldown blocks its account exactly until its end, and what else blocks it goes on; a circuit
      holds until the later of two ends. */
  lemma MarksBlock(s: Table, account: string, duration: nat, until: nat, now: nat, later: nat)
    requires account != "" && duration > 0 && until > 0
    ensures var t := DoRateLimited(s, account, duration, now);
      && (Blocked(t, account, later) <==> later <= now + duration || InForce(s.circuitOpen, account, later))
      && OthersStay(s, t, account, later) && t.sticky == s.sticky && t.lastUsed == s.lastUsed
    ensures var t := DoCircuitOpen(s, account, until);
      && (Blocked(t, account, later) <==> later <= until || Blocked(s, account, later))
      && OthersStay(s, t, account, later) && t.sticky == s.sticky && t.lastUsed == s.lastUsed
  {
  }

  // The announced reset.

  /** The end of the account's last block. */
  function FreeAfter(s: Table, account: string): nat {
    var a := if account in s.cooldown then s.cooldown[account] else 0;
    var b := if account in s.circuitOpen then s.circuitOpen[account] else 0;
    if a < b then b else a
  }

  /** The last moment at which all of the first k accounts are blocked. */
  function LastStand(s: Table, available: seq<string>, k: nat): nat
    requires 0 < k <= |available|
  {
    var f := FreeAfter(s, available[k - 1]);
    if k == 1 then f
    else
      var g := LastStand(s, available, k - 1);
      if f < g then f else g
  }

  lemma {:induction false} LastStandIsLeast(s: Table, available: seq<string>, k: nat)
    requires 0 < k <= |available|
    ensures forall i :: 0 <= i < k ==> LastStand(s, available, k) <= FreeAfter(s, available[i])
    ensures exists i :: 0 <= i < k && LastStand(s, available, k) == FreeAfter(s, available[i])
  {
    if k > 1 {
      LastStandIsLeast(s, available, k - 1);
    }
    assert FreeAfter(s, available[k - 1]) == FreeAfter(s, available[k - 1]);
  }

  /** While nothing is marked or reset, all stay blocked exactly up to the last stand. */
  lemma AllBlockedUntilLastStand(s: Table, available: seq<string>, now: nat, later: nat)
    requires available != [] && AllBlocked(s, available, now) && now <= later
    ensures AllBlocked(s, available, later) <==> later <= LastStand(s, available, |available|)
  {
    LastStandIsLeast(s, available, |available|);
    assert forall i :: 0 <= i < |available| ==> Blocked(s, available[i], now);
    assert forall i :: 0 <= i < |available| ==>
      (Blocked(s, available[i], later) <==> later <= FreeAfter(s, available[i]));
  }

  predicate EndsAfter(m: Until, account: string, now: nat) { account in m && now < m[account] }

  /** Zero when no block of the first k accounts ends after now, else the soonest such end. */
  lemma {:induction false} EarliestIsSoonest(s: Table, available: seq<string>, k: nat, now: nat)
    requires k <= |available|
    ensures var e := Earliest(s, available, k, now);
      && (e != 0 ==> e > now)
      && (e != 0 ==>
            exists i :: 0 <= i < k && (InEnd(s.cooldown, available[i], e) || InEnd(s.circuitOpen, available[i], e)))
      && (forall i :: 0 <= i < k && EndsAfter(s.cooldown, available[i], now) ==> 0 < e <= s.cooldown[available[i]])
      && (forall i :: 0 <= i < k && EndsAfter(s.circuitOpen, available[i], now) ==>
            0 < e <= s.circuitOpen[available[i]])
  {
    if k > 0 {
      EarliestIsSoonest(s, available, k - 1, now);
      var e := Earliest(s, available, k, now);
      var d := Earliest(s, available, k - 1, now);
      if e != 0 && e == d {
        var i :| 0 <= i < k - 1 && (InEnd(s.cooldown, available[i], e) || InEnd(s.circuitOpen, available[i], e));
      } else if e != 0 {
        assert InEnd(s.cooldown, available[k - 1], e) || InEnd(s.circuitOpen, available[k - 1], e);
      }
    }
  }

  predicate InEnd(m: Until, account: string, end: nat) { account in m && m[account] == end }

  /** When all accounts are blocked, the announced reset is there and not too late exactly when no
      account is free right after now: a block that ends at this very moment is overlooked. */
  lemma ResetIsInTime(s: Table, available: seq<string>, now: nat)
    requires available != [] && AllBlocked(s, available, now)
    ensures var e, f := Earliest(s, available, |available|, now), LastStand(s, available, |available|);
      0 < e <= f <==> now < f
  {
    var n := |available|;
    var e, f := Earliest(s, available, n, now), LastStand(s, available, n);
    EarliestIsSoonest(s, available, n, now);
    LastStandIsLeast(s, available, n);
    var i :| 0 <= i < n && f == FreeAfter(s, available[i]);
    assert Blocked(s, available[i], now);
  }

  /** It is exact when, besides, no block ends between now and the first real release. (Zero is not
      a clock reading.) */
  lemma ResetIsExact(s: Table, available: seq<string>, now: nat)
    requires available != [] && AllBlocked(s, available, now) && now > 0
    ensures var e, f := Earliest(s, available, |available|, now), LastStand(s, available, |available|);
      e == f <==> now < f && forall i :: 0 <= i < |available| ==>
        (EndsAfter(s.cooldown, available[i], now) ==> f <= s.cooldown[available[i]])
        && (EndsAfter(s.circuitOpen, available[i], now) ==> f <= s.circuitOpen[available[i]])
  {
    var n := |available|;
    var e, f := Earliest(s, available, n, now), LastStand(s, available, n);
    ResetIsInTime(s, available, now);
    EarliestIsSoonest(s, available, n, now);
    AllBlockedUntilLastStand(s, available, now, now);
    if now < f {
      var i :| 0 <= i < n && (InEnd(s.cooldown, available[i], e) || InEnd(s.circuitOpen, available[i], e));
      assert EndsAfter(s.cooldown, available[i], now) || EndsAfter(s.circuitOpen, available[i], now);
    }
  }

  /** One account in a short cooldown inside a long circuit: the announced reset comes too early. */
  lemma ResetCanBeEarly()
    ensures var s := Table(map[], map["a" := 5], map["a" := 100], map[]);
      AllBlocked(s, ["a"], 1) && Earliest(s, ["a"], 1, 1) == 5 && LastStand(s, ["a"], 1) == 100
  {
  }
}
