/** The sliding window of the pairing service for each source, on integer clocks: one request, and
    whole runs of them. */
module RateLimit {
  import opened Collections

  /** Where a request comes from; the empty address is the host itself. */
  datatype Source = From(address: string)
  {
    predicate Local() { |address| == 0 }
  }

  /** Those of the first k times that fall after the cutoff, in order. */
  function LaterOf(times: seq<int>, k: nat, cutoff: int): seq<int>
    requires k <= |times|
  {
    if k == 0 then []
    else if times[k - 1] > cutoff then LaterOf(times, k - 1, cutoff) + [times[k - 1]]
    else LaterOf(times, k - 1, cutoff)
  }

  function Later(times: seq<int>, cutoff: int): seq<int> { LaterOf(times, |times|, cutoff) }

  lemma {:induction false} LaterOfPrefix(s: seq<int>, t: seq<int>, k: nat, cutoff: int)
    requires k <= |s| && k <= |t| && forall i :: 0 <= i < k ==> s[i] == t[i]
    ensures LaterOf(s, k, cutoff) == LaterOf(t, k, cutoff)
  {
    if k > 0 {
      LaterOfPrefix(s, t, k - 1, cutoff);
    }
  }

  lemma LaterPush(times: seq<int>, t: int, cutoff: int)
    ensures Later(times + [t], cutoff) == if t > cutoff then Later(times, cutoff) + [t] else Later(times, cutoff)
  {
    LaterOfPrefix(times, times + [t], |times|, cutoff);
  }

  /** A later cutoff sees through an earlier one. */
  lemma {:induction false} LaterTwice(times: seq<int>, k: nat, c: int, d: int)
    requires k <= |times| && c <= d
    ensures Later(LaterOf(times, k, c), d) == LaterOf(times, k, d)
  {
    if k > 0 {
      LaterTwice(times, k - 1, c, d);
      LaterPush(LaterOf(times, k - 1, c), times[k - 1], d);
    }
  }

  /** Moves the times after the cutoff to the front of their own array. */
  method Prune(times: array<int>, cutoff: int) returns (kept: nat)
    modifies times
    ensures kept <= times.Length && times[..kept] == Later(old(times[..]), cutoff)
  {
    kept := 0;
    for i := 0 to times.Length
      invariant 0 <= kept <= i
      invariant forall k :: i <= k < times.Length ==> times[k] == old(times[k])
      invariant times[..kept] == LaterOf(old(times[..]), i, cutoff)
    {
      var t := times[i];
      if t > cutoff {
        times[kept] := t;
        assert times[..kept + 1] == times[..kept] + [t];
        kept := kept + 1;
      }
    }
  }

  // What a request does to the buckets.

  type Buckets = map<Source, seq<int>>

  function TimesIn(b: Buckets, source: Source): seq<int> {
    if source in b then b[source] else []
  }

  function Checked(b: Buckets, source: Source, cutoff: int): Buckets {
    if source.Local() then b else b[source := Later(TimesIn(b, source), cutoff)]
  }

  function Recorded(b: Buckets, source: Source, cutoff: int, at: int): Buckets {
    if source.Local() then b else b[source := Later(TimesIn(b, source), cutoff) + [at]]
  }

  function InView(b: Buckets, source: Source, cutoff: int): nat { |Later(TimesIn(b, source), cutoff)| }

  predicate Below(b: Buckets, source: Source, cutoff: int, max: nat) {
    source.Local() || InView(b, source, cutoff) < max
  }

  /** The host itself is never refused, and leaves no trace. */
  lemma TheHostIsFree(b: Buckets, source: Source, cutoff: int, at: int, max: nat)
    requires source.address == ""
    ensures Below(b, source, cutoff, max) && Checked(b, source, cutoff) == b && Recorded(b, source, cutoff, at) == b
  {
  }

  class Limiter {
    var buckets: Buckets

    constructor ()
      ensures buckets == map[]
    {
      buckets := map[];
    }

    /** What is left of the source's bucket. */
    method Pruned(source: Source, cutoff: int) returns (pruned: seq<int>)
      ensures pruned == Later(TimesIn(buckets, source), cutoff)
    {
      var times := if source in buckets then buckets[source] else [];
      var a := new int[|times|](i requires 0 <= i < |times| => times[i]);
      assert a[..] == times;
      var kept := Prune(a, cutoff);
      pruned := a[..kept];
    }

    /** One slot for the request, if there is one left in the window. */
    method CheckBucket(source: Source, window: nat, max: nat, now: int) returns (ok: bool)
      modifies this
      ensures ok == Below(old(buckets), source, now - window, max)
      ensures buckets == if ok then Recorded(old(buckets), source, now - window, now)
                         else Checked(old(buckets), source, now - window)
    {
      if source.Local() {
        return true;
      }
      var pruned := Pruned(source, now - window);
      if |pruned| >= max {
        buckets := buckets[source := pruned];
        return false;
      }
      pruned := pruned + [now];
      buckets := buckets[source := pruned];
      return true;
    }

    /** Is the source below the ceiling? Takes no slot. */
    method CheckExchange(source: Source, window: nat, max: nat, now: int) returns (ok: bool)
      modifies this
      ensures ok == Below(old(buckets), source, now - window, max)
      ensures buckets == Checked(old(buckets), source, now - window)
    {
      if source.Local() {
        return true;
      }
      var pruned := Pruned(source, now - window);
      buckets := buckets[source := pruned];
      return |pruned| < max;
    }

    method RecordFailure(source: Source, window: nat, now: int)
      modifies this
      ensures buckets == Recorded(old(buckets), source, now - window, now)
    {
      if source.Local() {
        return;
      }
      var pruned := Pruned(source, now - window);
      pruned := pruned + [now];
      buckets := buckets[source := pruned];
    }
  }

  // Whole runs.

  /** What the requests of a limiter do, in the order in which it happens. A request reads the clock
      first and takes the lock later, so the readings may reach the lock out of order: `now` is
      when a step happens, `at` the reading it brings along, and the ticket tells requests apart.
      A creation reads the clock and then takes its slot or is refused. An exchange is checked and,
      if it is let through, ends with a recorded failure or without. */
  datatype Event =
    | Read(source: Source, ticket: nat, now: int)
    | Take(source: Source, ticket: nat, at: int, now: int, ok: bool)
    | Check(source: Source, ticket: nat, at: int, now: int, ok: bool)
    | Record(source: Source, ticket: nat, at: int, now: int)
    | Leave(source: Source, ticket: nat, now: int)

  /** The steps that take the lock, and those that take a slot. */
  predicate Locked(e: Event) { e.Take? || e.Check? || e.Record? }

  predicate Slot(e: Event) { e.Record? || (e.Take? && e.ok) }

  predicate Asks(e: Event) { e.Take? || e.Check? }

  /** The clock never goes back, and a reading is not later than its use. */
  ghost predicate Clocked(run: seq<Event>) {
    && (forall i, j :: 0 <= i < j < |run| ==> run[i].now <= run[j].now)
    && (forall i :: 0 <= i < |run| && Locked(run[i]) ==> run[i].at <= run[i].now)
  }

  function Next(b: Buckets, e: Event, window: nat): Buckets {
    if Slot(e) then Recorded(b, e.source, e.at - window, e.at)
    else if Locked(e) then Checked(b, e.source, e.at - window)
    else b
  }

  /** The buckets after the first k events. */
  function After(run: seq<Event>, k: nat, window: nat): Buckets
    requires k <= |run|
  {
    if k == 0 then map[] else Next(After(run, k - 1, window), run[k - 1], window)
  }

  ghost predicate AnsweredAt(run: seq<Event>, k: nat, window: nat, max: nat)
    requires k < |run|
  {
    Asks(run[k]) ==> (run[k].ok <==> Below(After(run, k, window), run[k].source, run[k].at - window, max))
  }

  /** Every request is answered as the buckets say. */
  ghost predicate Answered(run: seq<Event>, window: nat, max: nat) {
    forall k :: 0 <= k < |run| ==> AnsweredAt(run, k, window, max)
  }

  /** The tickets of a source in flight, each with the time it took off: a creation from its
      reading to its slot, an exchange from the check that lets it through to its end. */
  type Flight = map<nat, int>

  function Without(f: Flight, ticket: nat): Flight { map t | t in f && t != ticket :: f[t] }

  function Fly(f: Flight, e: Event, source: Source): Flight {
    if e.source != source || (e.Check? && !e.ok) then f
    else if e.Read? || e.Check? then f[e.ticket := e.now]
    else Without(f, e.ticket)
  }

  function InFlight(run: seq<Event>, k: nat, source: Source): Flight
    requires k <= |run|
  {
    if k == 0 then map[] else Fly(InFlight(run, k - 1, source), run[k - 1], source)
  }

  ghost predicate AtMost(run: seq<Event>, source: Source, most: int) {
    forall i :: 0 <= i <= |run| ==> |InFlight(run, i, source)| <= most
  }

  /** A ticket takes off once; a creation brings its own reading along, and an exchange records a
      failure with a reading made after its check. */
  predicate Follows(f: Flight, e: Event) {
    if e.Read? || e.Check? then e.ticket !in f
    else e.ticket in f && (e.Take? ==> f[e.ticket] == e.at) && (e.Record? ==> f[e.ticket] <= e.at)
  }

  ghost predicate ProperAt(run: seq<Event>, k: nat)
    requires k < |run|
  {
    Follows(InFlight(run, k, run[k].source), run[k])
  }

  ghost predicate Proper(run: seq<Event>) {
    forall k :: 0 <= k < |run| ==> ProperAt(run, k)
  }

  /** The runs of the two limiters. */
  ghost predicate Exchanges(run: seq<Event>) {
    forall k :: 0 <= k < |run| ==> run[k].Check? || run[k].Record? || run[k].Leave?
  }

  ghost predicate Creations(run: seq<Event>) {
    forall k :: 0 <= k < |run| ==> run[k].Read? || run[k].Take?
  }

  /** Every slot a source took in the first k events, none forgotten. */
  function Taken(run: seq<Event>, k: nat, source: Source): seq<int>
    requires k <= |run|
  {
    if k == 0 then []
    else if Slot(run[k - 1]) && run[k - 1].source == source then Taken(run, k - 1, source) + [run[k - 1].at]
    else Taken(run, k - 1, source)
  }

  /** A slot taken is a check and a record with the same reading, and a refusal is a check. */
  lemma CheckBucketIsTwoEvents(b: Buckets, source: Source, ticket: nat, at: int, now: int, ok: bool, window: nat)
    ensures var c := Next(b, Check(source, ticket, at, now, ok), window);
      (if ok then Next(c, Record(source, ticket, at, now), window) else c)
      == Next(b, Take(source, ticket, at, now, ok), window)
  {
    if !source.Local() {
      var times := TimesIn(b, source);
      LaterTwice(times, |times|, at - window, at - window);
    }
  }

  // What pruning hides.

  /** What an event makes of one source's bucket. */
  lemma NextAt(b: Buckets, e: Event, source: Source, window: nat)
    requires !source.Local()
    ensures TimesIn(Next(b, e, window), source) ==
      if e.source != source || !Locked(e) then TimesIn(b, source)
      else if Slot(e) then Later(TimesIn(b, source), e.at - window) + [e.at]
      else Later(TimesIn(b, source), e.at - window)
  {
  }

  /** What pruning leaves, with or without one more time, looks the same to a later window. */
  lemma PrunedView(before: seq<int>, after: seq<int>, took: bool, low: int, at: int, c: int)
    requires low <= c
    requires after == if took then Later(before, low) + [at] else Later(before, low)
    ensures Later(after, c) == Later(if took then before + [at] else before, c)
  {
    LaterTwice(before, |before|, low, c);
    LaterPush(Later(before, low), at, c);
    LaterPush(before, at, c);
  }

  lemma NextView(b: Buckets, e: Event, source: Source, window: nat, c: int)
    requires !source.Local() && (e.source == source && Locked(e) ==> e.at - window <= c)
    ensures Later(TimesIn(Next(b, e, window), source), c)
      == Later(if e.source == source && Slot(e) then TimesIn(b, source) + [e.at] else TimesIn(b, source), c)
  {
    NextAt(b, e, source, window);
    if e.source == source && Locked(e) {
      PrunedView(TimesIn(b, source), TimesIn(Next(b, e, window), source), Slot(e), e.at - window, e.at, c);
    }
  }

  /** No reading the source brought to the lock in the first k events is later than this one. */
  ghost predicate ReadingsUpTo(run: seq<Event>, k: nat, source: Source, at: int)
    requires k <= |run|
  {
    forall i :: 0 <= i < k && Locked(run[i]) && run[i].source == source ==> run[i].at <= at
  }

  /** Pruning is invisible: what a bucket still holds is all that a window could see whose end no
      reading so far has passed. */
  lemma {:induction false} PruningIsInvisible(run: seq<Event>, k: nat, source: Source, window: nat, c: int)
    requires k <= |run| && ReadingsUpTo(run, k, source, c + window) && !source.Local()
    ensures Later(TimesIn(After(run, k, window), source), c) == Later(Taken(run, k, source), c)
  {
    if k > 0 {
      PruningIsInvisible(run, k - 1, source, window, c);
      NextView(After(run, k - 1, window), run[k - 1], source, window, c);
      if Slot(run[k - 1]) {
        LaterPush(TimesIn(After(run, k - 1, window), source), run[k - 1].at, c);
        LaterPush(Taken(run, k - 1, source), run[k - 1].at, c);
      }
    }
  }

  lemma {:induction false} FewerAreLater(times: seq<int>, k: nat, c: int, d: int)
    requires k <= |times| && c <= d
    ensures |LaterOf(times, k, d)| <= |LaterOf(times, k, c)|
  {
    if k > 0 {
      FewerAreLater(times, k - 1, c, d);
    }
  }

  lemma {:induction false} LaterAgain(times: seq<int>, k: nat, c: int, d: int)
    requires k <= |times| && c <= d
    ensures Later(LaterOf(times, k, d), c) == LaterOf(times, k, d)
  {
    if k > 0 {
      LaterAgain(times, k - 1, c, d);
      LaterPush(LaterOf(times, k - 1, d), times[k - 1], c);
    }
  }

  /** Pruning never adds to what a window sees. */
  lemma PruningShrinks(times: seq<int>, low: int, c: int)
    ensures |Later(Later(times, low), c)| <= |Later(times, c)|
  {
    if low <= c {
      LaterTwice(times, |times|, low, c);
    } else {
      LaterAgain(times, |times|, c, low);
      FewerAreLater(times, |times|, c, low);
    }
  }

  /** Whatever the order of the readings, a bucket never shows more than the source took. */
  lemma {:induction false} BucketsOnlyForget(run: seq<Event>, k: nat, source: Source, window: nat, c: int)
    requires k <= |run| && !source.Local()
    ensures InView(After(run, k, window), source, c) <= |Later(Taken(run, k, source), c)|
  {
    if k > 0 {
      BucketsOnlyForget(run, k - 1, source, window, c);
      OneMoreForgets(run, k - 1, source, window, c);
    }
  }

  lemma OneMoreForgets(run: seq<Event>, k: nat, source: Source, window: nat, c: int)
    requires k < |run| && !source.Local()
    requires InView(After(run, k, window), source, c) <= |Later(Taken(run, k, source), c)|
    ensures InView(After(run, k + 1, window), source, c) <= |Later(Taken(run, k + 1, source), c)|
  {
    ViewGrows(After(run, k, window), run[k], source, window, c);
    HistoryGrows(run, k, source, c);
  }

  lemma HistoryGrows(run: seq<Event>, k: nat, source: Source, c: int)
    requires k < |run|
    ensures |Later(Taken(run, k + 1, source), c)| == |Later(Taken(run, k, source), c)|
      + if run[k].source == source && Slot(run[k]) && run[k].at > c then 1 else 0
  {
    if Slot(run[k]) {
      LaterPush(Taken(run, k, source), run[k].at, c);
    }
  }

  lemma ViewGrows(b: Buckets, e: Event, source: Source, window: nat, c: int)
    requires !source.Local()
    ensures InView(Next(b, e, window), source, c)
      <= InView(b, source, c) + if e.source == source && Slot(e) && e.at > c then 1 else 0
  {
    NextAt(b, e, source, window);
    if e.source == source && Locked(e) {
      PruningShrinks(TimesIn(b, source), e.at - window, c);
      LaterPush(Later(TimesIn(b, source), e.at - window), e.at, c);
    }
  }

  /** A request is let through whenever its source took fewer than max slots in the window ending
      with its reading, counted over everything it ever took, and exactly then if no later reading
      of the source has come to the lock before it. */
  lemma AdmitsExactlyBelowTheCeiling(run: seq<Event>, k: nat, window: nat, max: nat)
    requires Answered(run, window, max) && k < |run| && Asks(run[k])
    ensures var few := run[k].source.Local() || |Later(Taken(run, k, run[k].source), run[k].at - window)| < max;
      (few ==> run[k].ok) && (ReadingsUpTo(run, k, run[k].source, run[k].at) && run[k].ok ==> few)
  {
    assert AnsweredAt(run, k, window, max);
    var source, c := run[k].source, run[k].at - window;
    if !source.Local() {
      BucketsOnlyForget(run, k, source, window, c);
      if ReadingsUpTo(run, k, source, run[k].at) {
        PruningIsInvisible(run, k, source, window, c);
      }
    }
  }

  // Counting slots.

  /** How many of the first k times fall after a and not after b. */
  function CountOf(times: seq<int>, k: nat, a: int, b: int): nat
    requires k <= |times|
  {
    if k == 0 then 0 else CountOf(times, k - 1, a, b) + (if a < times[k - 1] <= b then 1 else 0)
  }

  function Count(times: seq<int>, a: int, b: int): nat { CountOf(times, |times|, a, b) }

  lemma {:induction false} CountOfPrefix(s: seq<int>, t: seq<int>, k: nat, a: int, b: int)
    requires k <= |s| && k <= |t| && forall i :: 0 <= i < k ==> s[i] == t[i]
    ensures CountOf(s, k, a, b) == CountOf(t, k, a, b)
  {
    if k > 0 {
      CountOfPrefix(s, t, k - 1, a, b);
    }
  }

  lemma CountPush(times: seq<int>, t: int, a: int, b: int)
    ensures Count(times + [t], a, b) == Count(times, a, b) + (if a < t <= b then 1 else 0)
  {
    CountOfPrefix(times, times + [t], |times|, a, b);
  }

  /** A window counts no more than its cutoff sees. */
  lemma {:induction false} CountsWhatIsLater(times: seq<int>, k: nat, a: int, b: int)
    requires k <= |times|
    ensures CountOf(times, k, a, b) <= |LaterOf(times, k, a)|
  {
    if k > 0 {
      CountsWhatIsLater(times, k - 1, a, b);
    }
  }

  lemma TakenNext(run: seq<Event>, k: nat, source: Source, a: int, b: int)
    requires k < |run|
    ensures var e := run[k];
      Count(Taken(run, k + 1, source), a, b)
      == Count(Taken(run, k, source), a, b) + (if Slot(e) && e.source == source && a < e.at <= b then 1 else 0)
  {
    if Slot(run[k]) {
      CountPush(Taken(run, k, source), run[k].at, a, b);
    }
  }

  /** Who is let through before any reading has passed the end of a stretch as long as the window
      finds fewer than max slots in it. */
  lemma ArrivalBound(run: seq<Event>, k: nat, window: nat, max: nat, a: int)
    requires k < |run| && Asks(run[k]) && run[k].ok && !run[k].source.Local()
    requires Answered(run, window, max)
    requires run[k].at <= a + window && ReadingsUpTo(run, k, run[k].source, a + window)
    ensures Count(Taken(run, k, run[k].source), a, a + window) < max
  {
    var source := run[k].source;
    var taken, bucket := Taken(run, k, source), TimesIn(After(run, k, window), source);
    assert AnsweredAt(run, k, window, max);
    PruningIsInvisible(run, k, source, window, a);
    CountsWhatIsLater(taken, |taken|, a, a + window);
    FewerAreLater(bucket, |bucket|, run[k].at - window, a);
  }

  // The bound for exchanges.

  /** The tickets that took off no later than b. */
  function Early(f: Flight, b: int): set<nat> { set t | t in f && f[t] <= b }

  lemma EarlyIsFew(f: Flight, b: int)
    ensures |Early(f, b)| <= |f|
  {
    SubsetSize(Early(f, b), f.Keys);
  }

  /** What an event makes of the early tickets. */
  lemma EarlyAfter(f: Flight, e: Event, source: Source, b: int)
    requires e.source == source ==> Follows(f, e)
    ensures var before, g := |Early(f, b)|, Fly(f, e, source); var after := |Early(g, b)|;
      if e.source != source || (e.Check? && !e.ok) then after == before
      else if e.Read? || e.Check? then after <= |g| && (e.now > b ==> after == before && after < |g|)
      else after == before - if f[e.ticket] <= b then 1 else 0
  {
    var g := Fly(f, e, source);
    EarlyIsFew(g, b);
    if e.source != source || (e.Check? && !e.ok) {
    } else if e.Read? || e.Check? {
      if e.now > b {
        assert Early(g, b) == Early(f, b);
        EarlyIsFew(f, b);
      }
    } else {
      assert Early(g, b) == Early(f, b) - {e.ticket};
    }
  }

  /** A check within the stretch comes before any reading past its end. */
  lemma CheckedInTime(run: seq<Event>, k: nat, window: nat, max: nat, a: int)
    requires Clocked(run) && Answered(run, window, max)
    requires k < |run| && run[k].Check? && run[k].ok && run[k].now <= a + window && !run[k].source.Local()
    ensures Count(Taken(run, k, run[k].source), a, a + window) < max
  {
    ArrivalBound(run, k, window, max, a);
  }

  /** The slots in the half-open stretch that ends with b, and the requests in flight that took off
      by then. */
  ghost function Load(run: seq<Event>, k: nat, source: Source, a: int, b: int): nat
    requires k <= |run|
  {
    Count(Taken(run, k, source), a, b) + |Early(InFlight(run, k, source), b)|
  }

  /** The event follows what is in flight, and no more than these are in flight after it. */
  ghost predicate Steps(run: seq<Event>, k: nat, source: Source, most: nat)
    requires k < |run|
  {
    && (run[k].source == source ==> Follows(InFlight(run, k, source), run[k]))
    && |InFlight(run, k + 1, source)| <= most
  }

  lemma TakesSteps(run: seq<Event>, k: nat, source: Source, most: nat)
    requires Proper(run) && AtMost(run, source, most) && k < |run|
    ensures Steps(run, k, source, most)
  {
    assert ProperAt(run, k);
  }

  /** A check that lets a request through by the end of the stretch. */
  predicate Lets(e: Event, source: Source, b: int) { e.source == source && e.Check? && e.ok && e.now <= b }

  /** Who is let through by the end of the stretch finds it below the maximum. */
  ghost predicate LetsBelow(run: seq<Event>, k: nat, source: Source, max: nat, a: int, b: int)
    requires k < |run|
  {
    && (run[k].Check? || run[k].Record? || run[k].Leave?)
    && (Lets(run[k], source, b) ==> Count(Taken(run, k, source), a, b) < max)
  }

  lemma ExchangeLetsBelow(run: seq<Event>, k: nat, source: Source, window: nat, max: nat, a: int)
    requires !source.Local() && Exchanges(run) && Clocked(run) && Answered(run, window, max) && k < |run|
    ensures LetsBelow(run, k, source, max, a, a + window)
  {
    if Lets(run[k], source, a + window) {
      CheckedInTime(run, k, window, max, a);
    }
  }

  lemma ExchangeTurn(run: seq<Event>, k: nat, source: Source, max: nat, most: nat, a: int, b: int)
    requires k < |run| && Steps(run, k, source, most) && LetsBelow(run, k, source, max, a, b)
    requires Load(run, k, source, a, b) <= max - 1 + most
    ensures Load(run, k + 1, source, a, b) <= max - 1 + most
  {
    TakenNext(run, k, source, a, b);
    EarlyAfter(InFlight(run, k, source), run[k], source, b);
  }

  /** No source takes more slots in any half-open stretch as long as the window than max less one
      plus the most of its requests ever in flight: max itself when they do not overlap. Those let
      through within the stretch and still in flight count in. */
  lemma {:induction false} WindowBound(run: seq<Event>, k: nat, source: Source, window: nat, max: nat, a: int,
                                       most: nat)
    requires !source.Local() && Exchanges(run) && Clocked(run) && Answered(run, window, max) && Proper(run)
    requires max > 0 && k <= |run| && AtMost(run, source, most)
    ensures Load(run, k, source, a, a + window) <= max - 1 + most
  {
    if k > 0 {
      WindowBound(run, k - 1, source, window, max, a, most);
      TakesSteps(run, k - 1, source, most);
      ExchangeLetsBelow(run, k - 1, source, window, max, a);
      ExchangeTurn(run, k - 1, source, max, most, a, a + window);
    }
  }

  // The bound for creations.

  ghost predicate ReadBy(run: seq<Event>, k: nat, source: Source, b: int)
    requires k <= |run|
  {
    forall i :: 0 <= i < k && run[i].Read? && run[i].source == source ==> run[i].now <= b
  }

  lemma {:induction false} TookOffBy(run: seq<Event>, k: nat, source: Source, b: int)
    requires Creations(run) && Proper(run) && k <= |run| && ReadBy(run, k, source, b)
    ensures forall t :: t in InFlight(run, k, source) ==> InFlight(run, k, source)[t] <= b
    ensures ReadingsUpTo(run, k, source, b)
  {
    if k > 0 {
      TookOffBy(run, k - 1, source, b);
      assert ProperAt(run, k - 1);
    }
  }

  /** A slot taken before any reading past the end of the stretch. */
  lemma TakenInTime(run: seq<Event>, k: nat, window: nat, max: nat, a: int)
    requires Creations(run) && Proper(run) && Answered(run, window, max)
    requires k < |run| && run[k].Take? && run[k].ok && !run[k].source.Local()
    requires ReadBy(run, k, run[k].source, a + window)
    ensures Count(Taken(run, k, run[k].source), a, a + window) < max
  {
    TookOffBy(run, k, run[k].source, a + window);
    assert ProperAt(run, k);
    ArrivalBound(run, k, window, max, a);
  }

  lemma ReadByNext(run: seq<Event>, k: nat, source: Source, b: int)
    requires Clocked(run) && k < |run|
    ensures var e := run[k]; var late := e.source == source && e.Read? && e.now > b;
      && (ReadBy(run, k + 1, source, b) <==> ReadBy(run, k, source, b) && !late)
      && (e.source == source && e.Read? && !ReadBy(run, k, source, b) ==> e.now > b)
  {
  }

  /** Up to the first reading past the end of the stretch, and from then on. */
  ghost predicate Bounded(read: bool, taken: nat, f: Flight, max: nat, most: nat, b: int) {
    if read then taken <= max else taken + |Early(f, b)| <= max - 1 + most
  }

  ghost predicate BoundedAt(run: seq<Event>, k: nat, source: Source, max: nat, most: nat, a: int, b: int)
    requires k <= |run|
  {
    Bounded(ReadBy(run, k, source, b), Count(Taken(run, k, source), a, b), InFlight(run, k, source), max, most, b)
  }

  /** Who takes a slot before any reading past the end of the stretch finds it below the maximum. */
  ghost predicate TakesBelow(run: seq<Event>, k: nat, source: Source, max: nat, a: int, b: int)
    requires k < |run|
  {
    && (run[k].Read? || run[k].Take?)
    && (ReadBy(run, k, source, b) && run[k].source == source && run[k].Take? && run[k].ok ==>
          Count(Taken(run, k, source), a, b) < max)
  }

  lemma CreationTakesBelow(run: seq<Event>, k: nat, source: Source, window: nat, max: nat, a: int)
    requires !source.Local() && Creations(run) && Proper(run) && Answered(run, window, max) && k < |run|
    ensures TakesBelow(run, k, source, max, a, a + window)
  {
    var e := run[k];
    if ReadBy(run, k, source, a + window) && e.source == source && e.Take? && e.ok {
      TakenInTime(run, k, window, max, a);
    }
  }

  lemma CreationTurn(run: seq<Event>, k: nat, source: Source, max: nat, most: nat, a: int, b: int)
    requires Clocked(run) && k < |run| && Steps(run, k, source, most) && TakesBelow(run, k, source, max, a, b)
    requires BoundedAt(run, k, source, max, most, a, b)
    ensures BoundedAt(run, k + 1, source, max, most, a, b)
  {
    TakenNext(run, k, source, a, b);
    ReadByNext(run, k, source, b);
    EarlyAfter(InFlight(run, k, source), run[k], source, b);
  }

  lemma {:induction false} CreationsStayBounded(run: seq<Event>, k: nat, source: Source, window: nat, max: nat, a: int,
                                                most: nat)
    requires !source.Local() && Creations(run) && Clocked(run) && Answered(run, window, max) && Proper(run)
    requires k <= |run| && AtMost(run, source, most)
    ensures BoundedAt(run, k, source, max, most, a, a + window)
  {
    if k > 0 {
      CreationsStayBounded(run, k - 1, source, window, max, a, most);
      TakesSteps(run, k - 1, source, most);
      CreationTakesBelow(run, k - 1, source, window, max, a);
      CreationTurn(run, k - 1, source, max, most, a, a + window);
    }
  }

  /** Creations keep the same bound, counting as in flight whoever has read the clock. */
  lemma CreationBound(run: seq<Event>, k: nat, source: Source, window: nat, max: nat, a: int, most: nat)
    requires !source.Local() && Creations(run) && Clocked(run) && Answered(run, window, max) && Proper(run)
    requires most > 0 && k <= |run| && AtMost(run, source, most)
    ensures Count(Taken(run, k, source), a, a + window) <= max - 1 + most
  {
    CreationsStayBounded(run, k, source, window, max, a, most);
  }

  /** The readings of the source come to the lock in order. */
  ghost predicate InOrder(run: seq<Event>, source: Source) {
    forall i, j :: 0 <= i < j < |run| && Locked(run[i]) && Locked(run[j]) && run[i].source == source == run[j].source
      ==> run[i].at <= run[j].at
  }

  /** When the readings of a source come to the lock in order, it never takes more than max. */
  lemma {:induction false} InOrderBound(run: seq<Event>, k: nat, source: Source, window: nat, max: nat, a: int)
    requires !source.Local() && Creations(run) && Answered(run, window, max) && InOrder(run, source) && k <= |run|
    ensures Count(Taken(run, k, source), a, a + window) <= max
  {
    if k > 0 {
      var e := run[k - 1];
      InOrderBound(run, k - 1, source, window, max, a);
      TakenNext(run, k - 1, source, a, a + window);
      if e.source == source && e.Take? && e.ok && e.at <= a + window {
        ArrivalBound(run, k - 1, window, max, a);
      }
    }
  }

  /** With a maximum of one a slot blocks every other until its window is over, in whatever order
      the readings come. */
  lemma {:induction false} OneSlotBound(run: seq<Event>, k: nat, source: Source, window: nat, a: int)
    requires !source.Local() && Creations(run) && Answered(run, window, 1) && k <= |run|
    ensures Count(Taken(run, k, source), a, a + window) <= 1
    ensures Count(Taken(run, k, source), a, a + window) == 1 ==> InView(After(run, k, window), source, a) > 0
  {
    if k > 0 {
      OneSlotBound(run, k - 1, source, window, a);
      TakenNext(run, k - 1, source, a, a + window);
      OneSlotStep(run, k - 1, source, window, a);
    }
  }

  lemma OneSlotStep(run: seq<Event>, k: nat, source: Source, window: nat, a: int)
    requires !source.Local() && k < |run| && (run[k].Read? || run[k].Take?) && AnsweredAt(run, k, window, 1)
    ensures var e, b, c := run[k], After(run, k, window), After(run, k + 1, window);
      var mine := Slot(e) && e.source == source && a < e.at <= a + window;
      && (mine ==> InView(b, source, a) == 0)
      && (mine || InView(b, source, a) > 0 ==> InView(c, source, a) > 0)
  {
    var e, bucket := run[k], TimesIn(After(run, k, window), source);
    NextAt(After(run, k, window), e, source, window);
    if e.source == source && e.Take? {
      OneSlotView(bucket, e.at, window, a, e.ok);
    }
  }

  lemma OneSlotView(bucket: seq<int>, at: int, window: nat, a: int, ok: bool)
    requires ok <==> |Later(bucket, at - window)| < 1
    ensures ok && at <= a + window ==> |Later(bucket, a)| == 0
    ensures ok && |Later(bucket, a)| > 0 ==> at > a
    ensures ok ==> |Later(Later(bucket, at - window) + [at], a)| == (if at > a then 1 else 0)
    ensures !ok && |Later(bucket, a)| > 0 ==> |Later(Later(bucket, at - window), a)| > 0
  {
    LaterPush(Later(bucket, at - window), at, a);
    if at - window <= a {
      LaterTwice(bucket, |bucket|, at - window, a);
      FewerAreLater(bucket, |bucket|, at - window, a);
    } else {
      LaterAgain(bucket, |bucket|, a, at - window);
    }
  }

  // Runs, one event more.

  /** What happened before an event does not depend on what comes after. */
  lemma {:induction false} SamePrefix(r: seq<Event>, t: seq<Event>, k: nat, source: Source, window: nat)
    requires k <= |r| && k <= |t| && forall i :: 0 <= i < k ==> r[i] == t[i]
    ensures After(r, k, window) == After(t, k, window) && Taken(r, k, source) == Taken(t, k, source)
    ensures InFlight(r, k, source) == InFlight(t, k, source)
  {
    if k > 0 {
      SamePrefix(r, t, k - 1, source, window);
    }
  }

  lemma PushKeepsBuckets(run: seq<Event>, e: Event, k: nat, window: nat)
    requires k <= |run|
    ensures After(run + [e], k, window) == After(run, k, window)
  {
    SamePrefix(run + [e], run, k, e.source, window);
  }

  lemma PushKeepsFlight(run: seq<Event>, e: Event, k: nat, source: Source)
    requires k <= |run|
    ensures InFlight(run + [e], k, source) == InFlight(run, k, source)
    ensures Taken(run + [e], k, source) == Taken(run, k, source)
  {
    SamePrefix(run + [e], run, k, source, 0);
  }

  lemma PushTakes(run: seq<Event>, e: Event, source: Source)
    ensures Taken(run + [e], |run + [e]|, source)
         == if Slot(e) && e.source == source then Taken(run, |run|, source) + [e.at] else Taken(run, |run|, source)
  {
    PushKeepsFlight(run, e, |run|, source);
  }

  lemma PushIsAnswered(run: seq<Event>, e: Event, window: nat, max: nat)
    requires Answered(run, window, max)
    requires Asks(e) ==> (e.ok <==> Below(After(run, |run|, window), e.source, e.at - window, max))
    ensures Answered(run + [e], window, max)
  {
    var r := run + [e];
    forall k | 0 <= k < |r|
      ensures AnsweredAt(r, k, window, max)
    {
      if k < |run| {
        AnswerStays(run, e, k, window, max);
      } else {
        PushKeepsBuckets(run, e, k, window);
      }
    }
  }

  lemma AnswerStays(run: seq<Event>, e: Event, k: nat, window: nat, max: nat)
    requires k < |run| && AnsweredAt(run, k, window, max)
    ensures AnsweredAt(run + [e], k, window, max)
  {
    PushKeepsBuckets(run, e, k, window);
  }
}
