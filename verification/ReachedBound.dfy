/** That the bounds on overlapping requests cannot be better. For every window, every maximum and
    every number of requests in flight there is a run of exchanges, all at one moment, which takes
    exactly as many slots as the bound allows: first requests that follow one another, then as many
    as are ever in flight at once. For creations the same holds from a maximum of two on: all but
    one of the requests read the clock early, and each of them takes its slot right after a late
    request has made the limiter forget the stretch. Both runs are built event by event, and each
    step keeps that requests are answered as the buckets say and follow what is in flight. */
module ReachedBound {
  import opened RateLimit

  datatype Limits = Limits(source: Source, window: nat, max: nat, most: nat)
  {
    predicate Open() { !source.Local() && window > 0 && max > 0 && most > 0 }
  }

  /** A run so far, with no step later than `last`: what is in flight, which slots were ever taken
      and what is left in the bucket. */
  ghost predicate At(run: seq<Event>, l: Limits, f: Flight, taken: seq<int>, bucket: seq<int>, last: int) {
    && Clocked(run) && Answered(run, l.window, l.max) && Proper(run) && AtMost(run, l.source, l.most)
    && (forall i :: 0 <= i < |run| ==> run[i].now <= last)
    && InFlight(run, |run|, l.source) == f
    && Taken(run, |run|, l.source) == taken
    && TimesIn(After(run, |run|, l.window), l.source) == bucket
  }

  lemma NothingYet(l: Limits, last: int)
    ensures At([], l, map[], [], [], last)
  {
  }

  lemma PushFlies(run: seq<Event>, e: Event, source: Source, most: nat)
    requires AtMost(run, source, most) && |Fly(InFlight(run, |run|, source), e, source)| <= most
    ensures InFlight(run + [e], |run + [e]|, source) == Fly(InFlight(run, |run|, source), e, source)
    ensures AtMost(run + [e], source, most)
  {
    PushKeepsFlight(run, e, |run|, source);
    forall i | 0 <= i <= |run + [e]|
      ensures |InFlight(run + [e], i, source)| <= most
    {
      if i <= |run| {
        PushKeepsFlight(run, e, i, source);
      }
    }
  }

  lemma PushIsProper(run: seq<Event>, e: Event)
    requires Proper(run) && Follows(InFlight(run, |run|, e.source), e)
    ensures Proper(run + [e])
  {
    var r := run + [e];
    forall k | 0 <= k < |r|
      ensures ProperAt(r, k)
    {
      PushKeepsFlight(run, e, k, r[k].source);
      assert k < |run| ==> ProperAt(run, k);
    }
  }

  lemma PushIsClocked(run: seq<Event>, e: Event, last: int)
    requires Clocked(run) && (forall i :: 0 <= i < |run| ==> run[i].now <= last)
    requires last <= e.now && (Locked(e) ==> e.at <= e.now)
    ensures Clocked(run + [e]) && forall i :: 0 <= i < |run + [e]| ==> (run + [e])[i].now <= e.now
  {
  }

  lemma PushBucket(run: seq<Event>, e: Event, source: Source, window: nat)
    requires !source.Local() && e.source == source
    ensures var bucket, r := TimesIn(After(run, |run|, window), source), run + [e];
      TimesIn(After(r, |r|, window), source) ==
        if Slot(e) then Later(bucket, e.at - window) + [e.at]
        else if Locked(e) then Later(bucket, e.at - window)
        else bucket
  {
    PushKeepsBuckets(run, e, |run|, window);
    NextAt(After(run, |run|, window), e, source, window);
  }

  /** One event more. */
  lemma Extend(run: seq<Event>, l: Limits, f: Flight, taken: seq<int>, bucket: seq<int>, last: int, e: Event)
    requires At(run, l, f, taken, bucket, last) && !l.source.Local()
    requires e.source == l.source && last <= e.now && (Locked(e) ==> e.at <= e.now)
    requires Follows(f, e) && |Fly(f, e, l.source)| <= l.most
    requires Asks(e) ==> (e.ok <==> |Later(bucket, e.at - l.window)| < l.max)
    ensures At(run + [e], l, Fly(f, e, l.source), if Slot(e) then taken + [e.at] else taken,
               if Slot(e) then Later(bucket, e.at - l.window) + [e.at]
               else if Locked(e) then Later(bucket, e.at - l.window)
               else bucket, e.now)
  {
    PushIsClocked(run, e, last);
    PushIsAnswered(run, e, l.window, l.max);
    PushIsProper(run, e);
    PushFlies(run, e, l.source, l.most);
    PushTakes(run, e, l.source);
    PushBucket(run, e, l.source, l.window);
  }

  /** Tickets i up to and not including n, all off at zero. */
  function Tickets(i: nat, n: nat): (f: Flight)
    requires i <= n
    ensures |f| == n - i && forall t :: t in f <==> i <= t < n
  {
    if i == n then map[] else Tickets(i, n - 1)[n - 1 := 0]
  }

  lemma Returns(f: Flight, ticket: nat, now: int)
    requires ticket !in f
    ensures |f[ticket := now]| == |f| + 1 && Without(f[ticket := now], ticket) == f
  {
    assert f[ticket := now].Keys == f.Keys + {ticket};
  }

  function Zeros(n: nat): (z: seq<int>)
    ensures |z| == n
  {
    if n == 0 then [] else Zeros(n - 1) + [0]
  }

  lemma {:induction false} ZerosInView(n: nat, a: int, b: int)
    requires a < 0 <= b
    ensures Later(Zeros(n), a) == Zeros(n) && Later(Zeros(n), 0) == [] && Count(Zeros(n), a, b) == n
  {
    if n > 0 {
      ZerosInView(n - 1, a, b);
      LaterPush(Zeros(n - 1), 0, a);
      LaterPush(Zeros(n - 1), 0, 0);
      CountPush(Zeros(n - 1), 0, a, b);
    }
  }

  // Exchanges.

  /** A run of exchanges at one moment, with these many slots taken and requests in flight. */
  ghost predicate Moment(run: seq<Event>, l: Limits, taken: nat, flight: nat) {
    Exchanges(run) && At(run, l, Tickets(0, flight), Zeros(taken), Zeros(taken), 0)
  }

  lemma OneCheck(run: seq<Event>, l: Limits, taken: nat, flight: nat) returns (r: seq<Event>)
    requires l.Open() && Moment(run, l, taken, flight) && taken < l.max && flight < l.most
    ensures Moment(r, l, taken, flight + 1)
  {
    var e := Check(l.source, flight, 0, 0, true);
    ZerosInView(taken, 0 - l.window, 0);
    Extend(run, l, Tickets(0, flight), Zeros(taken), Zeros(taken), 0, e);
    r := run + [e];
  }

  lemma OneRecord(run: seq<Event>, l: Limits, taken: nat, flight: nat) returns (r: seq<Event>)
    requires l.Open() && Moment(run, l, taken, flight) && 0 < flight <= l.most
    ensures Moment(r, l, taken + 1, flight - 1)
  {
    var e := Record(l.source, flight - 1, 0, 0);
    ZerosInView(taken, 0 - l.window, 0);
    Returns(Tickets(0, flight - 1), flight - 1, 0);
    Extend(run, l, Tickets(0, flight), Zeros(taken), Zeros(taken), 0, e);
    r := run + [e];
  }

  /** The bound of WindowBound is reached: max - 1 requests one after the other, then as many at
      once as ever are in flight. */
  lemma BoundIsReached(source: Source, window: nat, max: nat, most: nat) returns (run: seq<Event>)
    requires !source.Local() && window > 0 && max > 0 && most > 0
    ensures Exchanges(run) && Clocked(run) && Answered(run, window, max) && Proper(run)
    ensures AtMost(run, source, most)
    ensures Count(Taken(run, |run|, source), -1, -1 + window) == max - 1 + most
  {
    var l := Limits(source, window, max, most);
    run := OneByOne(l, max - 1);
    run := AllArrive(run, l, most);
    run := AllRecord(run, l, max - 1, most, max - 1 + most);
    ZerosInView(max - 1 + most, -1, -1 + window);
  }

  lemma {:induction false} OneByOne(l: Limits, n: nat) returns (run: seq<Event>)
    requires l.Open() && n < l.max
    ensures Moment(run, l, n, 0)
  {
    if n == 0 {
      run := [];
      NothingYet(l, 0);
    } else {
      run := OneByOne(l, n - 1);
      run := OneCheck(run, l, n - 1, 0);
      run := OneRecord(run, l, n - 1, 1);
    }
  }

  lemma {:induction false} AllArrive(before: seq<Event>, l: Limits, n: nat) returns (run: seq<Event>)
    requires l.Open() && n <= l.most && Moment(before, l, l.max - 1, 0)
    ensures Moment(run, l, l.max - 1, n)
  {
    run := before;
    if n > 0 {
      run := AllArrive(before, l, n - 1);
      run := OneCheck(run, l, l.max - 1, n - 1);
    }
  }

  lemma {:induction false} AllRecord(before: seq<Event>, l: Limits, taken: nat, n: nat, total: nat)
    returns (run: seq<Event>)
    requires l.Open() && n <= l.most && Moment(before, l, taken, n) && taken + n == total
    ensures Moment(run, l, total, 0)
    decreases n
  {
    if n == 0 {
      run := before;
    } else {
      run := OneRecord(before, l, taken, n);
      run := AllRecord(run, l, taken + 1, n - 1, total);
    }
  }

  // Creations.

  /** A ticket reads the clock. */
  lemma OneReads(run: seq<Event>, l: Limits, f: Flight, taken: seq<int>, bucket: seq<int>, last: int,
                 ticket: nat, now: int)
    returns (r: seq<Event>)
    requires Creations(run) && At(run, l, f, taken, bucket, last) && !l.source.Local()
    requires ticket !in f && |f| < l.most && last <= now
    ensures r == run + [Read(l.source, ticket, now)]
    ensures Creations(r) && At(r, l, f[ticket := now], taken, bucket, now)
  {
    Returns(f, ticket, now);
    Extend(run, l, f, taken, bucket, last, Read(l.source, ticket, now));
    r := run + [Read(l.source, ticket, now)];
  }

  /** A ticket takes its slot. */
  lemma OneTakes(run: seq<Event>, l: Limits, f: Flight, taken: seq<int>, bucket: seq<int>, ticket: nat, at: int,
                 now: int)
    returns (r: seq<Event>)
    requires Creations(run) && At(run, l, f[ticket := at], taken, bucket, now) && !l.source.Local()
    requires ticket !in f && |f| < l.most && at <= now && |Later(bucket, at - l.window)| < l.max
    ensures r == run + [Take(l.source, ticket, at, now, true)]
    ensures Creations(r) && At(r, l, f, taken + [at], Later(bucket, at - l.window) + [at], now)
  {
    Returns(f, ticket, at);
    Extend(run, l, f[ticket := at], taken, bucket, now, Take(l.source, ticket, at, now, true));
    r := run + [Take(l.source, ticket, at, now, true)];
  }

  lemma AtOnce(run: seq<Event>, l: Limits, f: Flight, taken: seq<int>, bucket: seq<int>, last: int, ticket: nat,
               now: int)
    returns (r: seq<Event>)
    requires Creations(run) && At(run, l, f, taken, bucket, last) && !l.source.Local()
    requires ticket !in f && |f| < l.most && last <= now && |Later(bucket, now - l.window)| < l.max
    ensures r == run + [Read(l.source, ticket, now)] + [Take(l.source, ticket, now, now, true)]
    ensures Creations(r) && At(r, l, f, taken + [now], Later(bucket, now - l.window) + [now], now)
  {
    r := OneReads(run, l, f, taken, bucket, last, ticket, now);
    r := OneTakes(r, l, f, taken, bucket, ticket, now, now);
  }

  /** Tickets 1 to n read zero and wait. */
  lemma {:induction false} AllRead(l: Limits, n: nat) returns (run: seq<Event>)
    requires l.Open() && n <= l.most
    ensures Creations(run) && At(run, l, Tickets(1, n + 1), [], [], 0)
  {
    if n == 0 {
      run := [];
      NothingYet(l, 0);
    } else {
      run := AllRead(l, n - 1);
      run := OneReads(run, l, Tickets(1, n), [], [], 0, n, 0);
    }
  }

  /** Ticket 0 takes n slots at zero. */
  lemma {:induction false} OneAfterTheOther(before: seq<Event>, l: Limits, f: Flight, n: nat) returns (run: seq<Event>)
    requires l.Open() && Creations(before) && At(before, l, f, [], [], 0) && 0 !in f && |f| < l.most && n <= l.max
    ensures Creations(run) && At(run, l, f, Zeros(n), Zeros(n), 0)
  {
    run := before;
    if n > 0 {
      run := OneAfterTheOther(before, l, f, n - 1);
      ZerosInView(n - 1, 0 - l.window, 0);
      run := AtOnce(run, l, f, Zeros(n - 1), Zeros(n - 1), 0, 0, 0);
    }
  }

  lemma LaterOne(x: int, c: int)
    ensures Later([x], c) == if x > c then [x] else []
  {
    LaterPush([], x, c);
    assert [] + [x] == [x];
  }

  lemma LaterTwo(x: int, y: int, c: int)
    ensures Later([x, y], c) == Later([x], c) + Later([y], c)
  {
    LaterOne(y, c);
    LaterPush([x], y, c);
    assert [x] + [y] == [x, y];
  }

  /** Ticket 0 comes and goes a window later, and the last of the waiting ones takes its slot. */
  lemma OneLateOneEarly(run: seq<Event>, l: Limits, taken: seq<int>, bucket: seq<int>, early: nat, last: nat)
    returns (r: seq<Event>)
    requires l.Open() && l.max > 1 && 0 < early < l.most
    requires Creations(run) && At(run, l, Tickets(1, early + 1), taken, bucket, last) && Later(bucket, last) == []
    ensures Creations(r)
    ensures At(r, l, Tickets(1, early), taken + [last + l.window] + [0], [last + l.window, 0], last + l.window)
  {
    var now := last + l.window;
    r := AtOnce(run, l, Tickets(1, early + 1), taken, bucket, last, 0, now);
    LaterOne(now, 0 - l.window);
    assert [] + [now] == [now] && [now] + [0] == [now, 0];
    r := OneTakes(r, l, Tickets(1, early), taken + [now], [now], early, 0, now);
  }

  lemma {:induction false} EarlyOnesTake(before: seq<Event>, l: Limits, taken: seq<int>, bucket: seq<int>,
                                         early: nat, last: nat)
    returns (run: seq<Event>)
    requires l.Open() && l.max > 1 && early < l.most
    requires Creations(before) && At(before, l, Tickets(1, early + 1), taken, bucket, last) && Later(bucket, last) == []
    ensures Creations(run) && Clocked(run) && Answered(run, l.window, l.max) && Proper(run)
    ensures AtMost(run, l.source, l.most)
    ensures Count(Taken(run, |run|, l.source), -1, -1 + l.window) == Count(taken, -1, -1 + l.window) + early
    decreases early
  {
    run := before;
    if early > 0 {
      var now := last + l.window;
      run := OneLateOneEarly(before, l, taken, bucket, early, last);
      LaterTwo(now, 0, now);
      LaterOne(now, now);
      LaterOne(0, now);
      CountPush(taken, now, -1, -1 + l.window);
      CountPush(taken + [now], 0, -1, -1 + l.window);
      run := EarlyOnesTake(run, l, taken + [now] + [0], [now, 0], early - 1, now);
    }
  }

  /** So is the bound of CreationBound, from a maximum of two on. */
  lemma CreationBoundIsReached(source: Source, window: nat, max: nat, most: nat) returns (run: seq<Event>)
    requires !source.Local() && window > 0 && max > 1 && most > 0
    ensures Creations(run) && Clocked(run) && Answered(run, window, max) && Proper(run)
    ensures AtMost(run, source, most)
    ensures Count(Taken(run, |run|, source), -1, -1 + window) == max - 1 + most
  {
    var l := Limits(source, window, max, most);
    run := AllRead(l, most - 1);
    run := OneAfterTheOther(run, l, Tickets(1, most), max);
    ZerosInView(max, -1, -1 + window);
    run := EarlyOnesTake(run, l, Zeros(max), Zeros(max), most - 1, 0);
  }

  // When the plain maximum holds.

  /** A run of creations with at most so many in flight that takes more than the maximum. */
  ghost predicate Exceeds(run: seq<Event>, source: Source, window: nat, max: nat, most: nat, a: int) {
    && Creations(run) && Clocked(run) && Answered(run, window, max) && Proper(run) && AtMost(run, source, most)
    && Count(Taken(run, |run|, source), a, a + window) > max
  }

  /** Slots at 1, 2 and 12, and then one for the request that read 5. */
  function LateLock(source: Source): seq<Event> {
    [] + [Read(source, 1, 1)] + [Take(source, 1, 1, 1, true)] + [Read(source, 2, 2)] + [Take(source, 2, 2, 2, true)]
    + [Read(source, 3, 5)] + [Read(source, 4, 12)] + [Take(source, 4, 12, 12, true)] + [Take(source, 3, 5, 12, true)]
  }

  /** With a window of ten and a maximum of two these are three in the ten after zero. */
  lemma LateLockExceeds(source: Source)
    requires !source.Local()
    ensures Exceeds(LateLock(source), source, 10, 2, 2, 0)
    ensures Count(Taken(LateLock(source), |LateLock(source)|, source), 0, 10) == 3
  {
    var l := Limits(source, 10, 2, 2);
    NothingYet(l, 1);
    var run := AtOnce([], l, map[], [], [], 1, 1, 1);
    LaterOne(1, 2 - 10);
    run := AtOnce(run, l, map[], [1], [1], 1, 2, 2);
    assert [1] + [2] == [1, 2];
    run := OneReads(run, l, map[], [1, 2], [1, 2], 2, 3, 5);
    TwelveThenFive(run, l);
  }

  lemma TwelveThenFive(before: seq<Event>, l: Limits)
    requires !l.source.Local() && l.window == 10 && l.max == 2 && l.most == 2
    requires Creations(before) && At(before, l, map[3 := 5], [1, 2], [1, 2], 5)
    ensures var run := before + [Read(l.source, 4, 12)] + [Take(l.source, 4, 12, 12, true)]
        + [Take(l.source, 3, 5, 12, true)];
      Exceeds(run, l.source, 10, 2, 2, 0) && Count(Taken(run, |run|, l.source), 0, 10) == 3
  {
    LaterTwo(1, 2, 2);
    LaterOne(1, 2);
    LaterOne(2, 2);
    var run := AtOnce(before, l, map[3 := 5], [1, 2], [1, 2], 5, 4, 12);
    assert [1, 2] + [12] == [1, 2, 12];
    assert [] + [] + [12] == [12];
    LaterOne(12, 5 - 10);
    run := OneTakes(run, l, map[], [1, 2, 12], [12], 3, 5, 12);
    assert Count([1, 2, 12], 0, 10) == 2;
    CountPush([1, 2, 12], 5, 0, 10);
  }

  lemma {:induction false} EmptyStretch(times: seq<int>, k: nat, a: int)
    requires k <= |times|
    ensures CountOf(times, k, a, a) == 0
  {
    if k > 0 {
      EmptyStretch(times, k - 1, a);
    }
  }

  lemma NothingExceeds(run: seq<Event>, source: Source, window: nat, max: nat, most: nat, a: int)
    requires !source.Local() && max > 0 && most > 0 && (most == 1 || max == 1 || window == 0)
    ensures !Exceeds(run, source, window, max, most, a)
  {
    if Exceeds(run, source, window, max, most, a) {
      if window == 0 {
        EmptyStretch(Taken(run, |run|, source), |Taken(run, |run|, source)|, a);
      } else if max == 1 {
        OneSlotBound(run, |run|, source, window, a);
      } else {
        CreationBound(run, |run|, source, window, max, a, most);
      }
    }
  }

  /** The maximum itself holds over all runs of creations exactly when they do not overlap, or only
      one slot is to be had, or the window is empty. */
  lemma PlainMaximumExactly(source: Source, window: nat, max: nat, most: nat)
    requires !source.Local() && max > 0 && most > 0
    ensures (forall run, a :: !Exceeds(run, source, window, max, most, a)) <==> most == 1 || max == 1 || window == 0
  {
    if most == 1 || max == 1 || window == 0 {
      forall run, a
        ensures !Exceeds(run, source, window, max, most, a)
      {
        NothingExceeds(run, source, window, max, most, a);
      }
    } else {
      var run := CreationBoundIsReached(source, window, max, most);
      assert Exceeds(run, source, window, max, most, -1);
    }
  }
}
