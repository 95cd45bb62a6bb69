/** One event-bus subscriber as interleaved atomic steps, the classes that perform them, and what
    holds of every interleaving. */
module BusProtocol {
  import opened Collections

  /** Capacity of the output channel. */
  const QUEUE_LIMIT: nat := 256

  /** An event is identified by its place among the events the subscriber accepted for handling. */
  datatype Event = Event(tag: nat, critical: bool)

  /** Where the delivery goroutine is: about to lock, in the select on done and notify,
      in the select that sends the popped event, or returned (stopped is closed). */
  datatype Deliverer = AtLoop | Parked | Holding(ev: Event) | Stopped

  /** How far close has come: the flag set, done closed, stopped seen, out closed. */
  datatype Closer = Open | Marked | Signalled | Joined | OutClosed

  /** `notifiers` counts publishers between their unlock and their notify; `published`,
      `received` and `dropped` are histories; `panicked` records a send on the closed channel. */
  datatype State = State(
    critical: seq<Event>,
    pending: bool,
    out: seq<Event>,
    notify: bool,
    deliverer: Deliverer,
    closer: Closer,
    notifiers: nat,
    published: seq<Event>,
    received: seq<Event>,
    dropped: seq<Event>,
    panicked: bool)
  {
    predicate Closed() { !closer.Open? }

    predicate Done() { closer.Signalled? || closer.Joined? || closer.OutClosed? }

    /** A send on out can proceed now: there is room, or the channel is closed (and it panics). */
    predicate CanSend() { closer.OutClosed? || |out| < QUEUE_LIMIT }

    function SendOut(ev: Event): State {
      if closer.OutClosed? then this.(panicked := true) else this.(out := out + [ev])
    }

    function Hand(): seq<Event> {
      if deliverer.Holding? then [deliverer.ev] else []
    }

    /** Everything accepted and not discarded at publish, in the order the consumer would see it. */
    function Pipeline(): seq<Event> {
      received + out + Hand() + dropped + critical
    }
  }

  function Init(): State {
    State([], false, [], false, AtLoop, Open, 0, [], [], [], false)
  }

  datatype Step =
    | Publish(critical: bool) | Notify
    | Check | Wake | Send | Quit
    | Mark | Signal | Join | CloseOut
    | Receive

  predicate Enabled(s: State, step: Step) {
    match step
    case Publish(_) => true
    case Notify => s.notifiers > 0
    case Check => s.deliverer.AtLoop?
    case Wake => s.deliverer.Parked? && s.notify
    case Send => s.deliverer.Holding? && s.CanSend()
    case Quit => (s.deliverer.Parked? || s.deliverer.Holding?) && s.Done()
    case Mark => s.closer.Open?
    case Signal => s.closer.Marked?
    case Join => s.closer.Signalled? && s.deliverer.Stopped?
    case CloseOut => s.closer.Joined?
    case Receive => s.out != []
  }

  /** The critical section of publish. */
  function PublishLocked(s: State, ev: Event): State {
    if s.Closed() then s
    else
      var t := s.(published := s.published + [ev]);
      if !ev.critical then
        if s.pending || !s.CanSend() then t else t.SendOut(ev)
      else if !s.pending && s.CanSend() then t.SendOut(ev)
      else t.(critical := s.critical + [ev], pending := true, notifiers := s.notifiers + 1)
  }

  /** The critical section at the head of the delivery loop. */
  function CheckLocked(s: State): State {
    if s.critical == [] then s.(pending := false, deliverer := Parked)
    else s.(deliverer := Holding(s.critical[0]), critical := s.critical[1..])
  }

  function Apply(s: State, step: Step): State
    requires Enabled(s, step)
  {
    match step
    case Publish(c) => PublishLocked(s, Event(|s.published|, c))
    case Notify => s.(notify := true, notifiers := s.notifiers - 1)
    case Check => CheckLocked(s)
    case Wake => s.(notify := false, deliverer := AtLoop)
    case Send => s.SendOut(s.deliverer.ev).(deliverer := AtLoop)
    case Quit => s.(deliverer := Stopped, dropped := s.Hand())
    case Mark => s.(closer := Marked)
    case Signal => s.(closer := Signalled)
    case Join => s.(closer := Joined)
    case CloseOut => s.(closer := OutClosed)
    case Receive => s.(out := s.out[1..], received := s.received + [s.out[0]])
  }

  predicate Legal(s: State, steps: seq<Step>)
    decreases |steps|
  {
    steps == [] || (Enabled(s, steps[0]) && Legal(Apply(s, steps[0]), steps[1..]))
  }

  function Run(s: State, steps: seq<Step>): State
    requires Legal(s, steps)
    decreases |steps|
  {
    if steps == [] then s else Run(Apply(s, steps[0]), steps[1..])
  }

  // ---- what every interleaving keeps ----

  function Criticals(q: seq<Event>): seq<Event> {
    if q == [] then [] else (if q[0].critical then [q[0]] else []) + Criticals(q[1..])
  }

  ghost predicate Increasing(q: seq<Event>) {
    forall i, j :: 0 <= i < j < |q| ==> q[i].tag < q[j].tag
  }

  /** q is an order-preserving selection from `published`. */
  ghost predicate SelectedFrom(q: seq<Event>, published: seq<Event>) {
    && Increasing(q)
    && forall i :: 0 <= i < |q| ==> q[i].tag < |published| && published[q[i].tag] == q[i]
  }

  /** What the queues hold, against what was published. */
  ghost predicate Ordered(s: State) {
    && (forall i :: 0 <= i < |s.published| ==> s.published[i].tag == i)
    && SelectedFrom(s.Pipeline(), s.published)
    && Criticals(s.Pipeline()) == Criticals(s.published)
  }

  /** How the flags, the channels and the two goroutines' positions fit together. */
  ghost predicate Coordinated(s: State) {
    && !s.panicked
    && |s.out| <= QUEUE_LIMIT
    && (!s.pending ==> s.critical == [] && !s.deliverer.Holding?)
    && (s.dropped != [] ==> s.deliverer.Stopped?)
    && (s.deliverer.Stopped? ==> s.Done())
    && (s.closer.Joined? || s.closer.OutClosed? ==> s.deliverer.Stopped?)
    && (s.deliverer.Parked? && s.critical != [] ==> s.notify || s.notifiers > 0)
    && (s.deliverer.Parked? && s.critical == [] ==> !s.pending)
  }

  ghost predicate Inv(s: State) { Ordered(s) && Coordinated(s) }

  lemma {:induction false} CriticalsAppend(q: seq<Event>, r: seq<Event>)
    ensures Criticals(q + r) == Criticals(q) + Criticals(r)
  {
    if q == [] {
      NothingBefore(r);
    } else {
      TailOfJoin(q, r);
      CriticalsAppend(q[1..], r);
      Associate(if q[0].critical then [q[0]] else [], Criticals(q[1..]), Criticals(r));
    }
  }

  lemma SelectionGrows(q: seq<Event>, published: seq<Event>, ev: Event)
    requires SelectedFrom(q, published) && ev.tag == |published|
    ensures SelectedFrom(q, published + [ev]) && SelectedFrom(q + [ev], published + [ev])
  {
    var p := published + [ev];
    forall i | 0 <= i < |q + [ev]|
      ensures (q + [ev])[i].tag < |p| && p[(q + [ev])[i].tag] == (q + [ev])[i]
    {
      if i < |q| {
        assert q[i].tag < |published|;
      }
    }
    forall i | 0 <= i < |q|
      ensures q[i].tag < |p| && p[q[i].tag] == q[i]
    {
    }
  }

  lemma StepKeepsCoordination(s: State, step: Step)
    requires Coordinated(s) && Enabled(s, step)
    ensures Coordinated(Apply(s, step))
  {
  }

  /** No critical event waits and the channel has room. */
  predicate Roomy(s: State) { !s.pending && |s.out| < QUEUE_LIMIT }

  /** What a publish adds to the pipeline: nothing once close has begun, and a normal event only when
      there is room for it. */
  function Admitted(s: State, critical: bool): seq<Event> {
    if !s.Closed() && (critical || Roomy(s)) then [Event(|s.published|, critical)] else []
  }

  /** A published event joins the end of the pipeline unless it is dropped whole, and it is dropped
      exactly when it is not critical and a critical one waits or the channel is full. */
  lemma PublishExtendsThePipeline(s: State, critical: bool)
    requires Coordinated(s)
    ensures var ev, t := Event(|s.published|, critical), Apply(s, Publish(critical));
      && t.published == (if s.Closed() then s.published else s.published + [ev])
      && t.Pipeline() == s.Pipeline() + Admitted(s, critical)
      && (!s.Closed() ==>
            (t.Pipeline() == s.Pipeline() + [ev] <==> critical || (!s.pending && |s.out| < 256)))
  {
    var ev, t := Event(|s.published|, critical), Apply(s, Publish(critical));
    NothingAdded(s.Pipeline());
    if t.out == s.out + [ev] {
      assert s.Pipeline() == s.received + s.out;
      assert t.Pipeline() == s.received + s.out + [ev];
    } else if t.critical == s.critical + [ev] {
      assert t.Pipeline() == s.Pipeline() + [ev];
    }
  }

  /** An event that finds room goes straight out; a critical one that does not is queued, and its
      publisher owes one token; nothing else of the subscriber changes. */
  lemma PublishPlaces(s: State, critical: bool)
    requires Coordinated(s) && !s.Closed()
    ensures var ev, t := Event(|s.published|, critical), Apply(s, Publish(critical));
      && t.out == (if Roomy(s) then s.out + [ev] else s.out)
      && t.critical == (if critical && !Roomy(s) then s.critical + [ev] else s.critical)
      && t.notifiers == s.notifiers + (if critical && !Roomy(s) then 1 else 0)
      && t.pending == (s.pending || (critical && !Roomy(s)))
      && t.notify == s.notify && t.deliverer == s.deliverer && t.closer == s.closer
      && t.received == s.received && t.dropped == s.dropped && !t.panicked
  {
  }

  lemma PopKeepsThePipeline(s: State)
    requires Coordinated(s) && s.deliverer.AtLoop?
    ensures CheckLocked(s).Pipeline() == s.Pipeline()
  {
    var t := CheckLocked(s);
    if s.critical != [] {
      assert s.Pipeline() == s.received + s.out + s.critical;
      assert t.Pipeline() == s.received + s.out + ([s.critical[0]] + s.critical[1..]);
    }
  }

  lemma SendKeepsThePipeline(s: State)
    requires Coordinated(s) && s.deliverer.Holding? && s.CanSend()
    ensures Apply(s, Send).Pipeline() == s.Pipeline()
  {
    assert s.Pipeline() == s.received + s.out + [s.deliverer.ev] + s.critical;
    assert Apply(s, Send).Pipeline() == s.received + (s.out + [s.deliverer.ev]) + s.critical;
  }

  lemma QuitKeepsThePipeline(s: State)
    requires Coordinated(s) && Enabled(s, Quit)
    ensures Apply(s, Quit).Pipeline() == s.Pipeline()
  {
    assert Apply(s, Quit).Pipeline() == s.received + s.out + s.Hand() + s.critical;
  }

  lemma ReceiveKeepsThePipeline(s: State)
    requires s.out != []
    ensures Apply(s, Receive).Pipeline() == s.Pipeline()
  {
    assert s.received + s.out == s.received + [s.out[0]] + s.out[1..];
  }

  /** Every step but a publish only moves events along. */
  lemma OtherStepsKeepThePipeline(s: State, step: Step)
    requires Coordinated(s) && Enabled(s, step) && !step.Publish?
    ensures Apply(s, step).Pipeline() == s.Pipeline() && Apply(s, step).published == s.published
  {
    match step {
      case Check => PopKeepsThePipeline(s);
      case Send => SendKeepsThePipeline(s);
      case Quit => QuitKeepsThePipeline(s);
      case Receive => ReceiveKeepsThePipeline(s);
      case _ =>
    }
  }

  lemma StepKeepsInv(s: State, step: Step)
    requires Inv(s) && Enabled(s, step)
    ensures Inv(Apply(s, step))
  {
    StepKeepsCoordination(s, step);
    if !step.Publish? {
      OtherStepsKeepThePipeline(s, step);
    } else if !s.Closed() {
      PublishKeepsOrder(s, step.critical);
    }
  }

  lemma PublishKeepsOrder(s: State, critical: bool)
    requires Inv(s) && !s.Closed()
    ensures Ordered(Apply(s, Publish(critical)))
  {
    var ev := Event(|s.published|, critical);
    PublishExtendsThePipeline(s, critical);
    NothingAdded(s.Pipeline());
    SelectionGrows(s.Pipeline(), s.published, ev);
    CriticalsAppend(s.published, [ev]);
    CriticalsAppend(s.Pipeline(), [ev]);
  }

  lemma {:induction false} RunKeepsInv(s: State, steps: seq<Step>)
    requires Inv(s) && Legal(s, steps)
    ensures Inv(Run(s, steps))
    decreases |steps|
  {
    if steps != [] {
      StepKeepsInv(s, steps[0]);
      RunKeepsInv(Apply(s, steps[0]), steps[1..]);
    }
  }

  /** Delivery order and no loss, over every interleaving: what the consumer has, then what is
      buffered, held, dropped at shutdown and queued, is an order-preserving selection of the
      published events whose critical events are all of the critical events, each once. Nothing
      is dropped before done is closed, and no step sends on the closed output channel. */
  lemma EveryRunDeliversInOrder(steps: seq<Step>)
    requires Legal(Init(), steps)
    ensures var s := Run(Init(), steps);
      && SelectedFrom(s.Pipeline(), s.published)
      && Criticals(s.Pipeline()) == Criticals(s.published)
      && (!s.Done() ==> s.dropped == [])
      && !s.panicked
      && |s.out| <= QUEUE_LIMIT
  {
    RunKeepsInv(Init(), steps);
  }

  /** What a run of steps adds to the pipeline, publish by publish. */
  function AllAdmitted(s: State, steps: seq<Step>): seq<Event>
    requires Legal(s, steps)
    decreases |steps|
  {
    if steps == [] then []
    else
      (if steps[0].Publish? then Admitted(s, steps[0].critical) else []) + AllAdmitted(Apply(s, steps[0]), steps[1..])
  }

  /** In every interleaving the pipeline holds exactly the events that were critical or found room. */
  lemma {:induction false} PipelineIsWhatWasAdmitted(s: State, steps: seq<Step>)
    requires Inv(s) && Legal(s, steps)
    ensures Run(s, steps).Pipeline() == s.Pipeline() + AllAdmitted(s, steps)
    decreases |steps|
  {
    if steps == [] {
      NothingAdded(s.Pipeline());
    } else {
      var t := Apply(s, steps[0]);
      StepKeepsInv(s, steps[0]);
      PipelineIsWhatWasAdmitted(t, steps[1..]);
      if steps[0].Publish? {
        PublishExtendsThePipeline(s, steps[0].critical);
        Associate(s.Pipeline(), Admitted(s, steps[0].critical), AllAdmitted(t, steps[1..]));
      } else {
        OtherStepsKeepThePipeline(s, steps[0]);
        NothingBefore(AllAdmitted(t, steps[1..]));
      }
    }
  }

  /** Every normal event finds room. */
  predicate AlwaysRoom(s: State, steps: seq<Step>)
    requires Legal(s, steps)
    decreases |steps|
  {
    steps == [] ||
    ((steps[0].Publish? ==> steps[0].critical || s.Closed() || Roomy(s)) && AlwaysRoom(Apply(s, steps[0]), steps[1..]))
  }

  /** Then nothing is dropped. */
  lemma {:induction false} NothingIsDroppedWithRoom(s: State, steps: seq<Step>)
    requires Inv(s) && Legal(s, steps) && AlwaysRoom(s, steps) && s.Pipeline() == s.published
    ensures Run(s, steps).Pipeline() == Run(s, steps).published
    decreases |steps|
  {
    if steps != [] {
      StepKeepsInv(s, steps[0]);
      if steps[0].Publish? {
        PublishExtendsThePipeline(s, steps[0].critical);
        NothingAdded(s.Pipeline());
      } else {
        OtherStepsKeepThePipeline(s, steps[0]);
      }
      NothingIsDroppedWithRoom(Apply(s, steps[0]), steps[1..]);
    }
  }

  /** No wake-up is lost: a parked deliverer with queued critical events has a token waiting
      or a publisher that is about to leave one. */
  lemma NoLostWakeUp(steps: seq<Step>)
    requires Legal(Init(), steps)
    ensures var s := Run(Init(), steps);
      s.deliverer.Parked? && s.critical != [] ==> Enabled(s, Wake) || Enabled(s, Notify)
  {
    RunKeepsInv(Init(), steps);
  }

  // ---- progress ----

  /** Steps that no outside party has to initiate. */
  predicate Internal(step: Step) { !step.Publish? && !step.Mark? }

  function Measure(s: State): nat {
    3 * s.notifiers + (if s.notify then 2 else 0) + 3 * |s.critical| + |s.out|
    + (match s.deliverer case Stopped => 0 case Parked => 1 case AtLoop => 2 case Holding(_) => 4)
    + (match s.closer case Marked => 4 case Signalled => 3 case Joined => 2 case OutClosed => 1 case Open => 0)
  }

  lemma InternalStepsDecrease(s: State, step: Step)
    requires Inv(s) && Enabled(s, step) && Internal(step)
    ensures Measure(Apply(s, step)) < Measure(s)
  {
  }

  /** Without new publications every run is over after at most Measure(s) steps. */
  lemma {:induction false} InternalRunsAreBounded(s: State, steps: seq<Step>)
    requires Inv(s) && Legal(s, steps)
    requires forall i :: 0 <= i < |steps| ==> Internal(steps[i])
    ensures |steps| + Measure(Run(s, steps)) <= Measure(s)
    decreases |steps|
  {
    if steps != [] {
      InternalStepsDecrease(s, steps[0]);
      StepKeepsInv(s, steps[0]);
      InternalRunsAreBounded(Apply(s, steps[0]), steps[1..]);
    }
  }

  ghost predicate Quiescent(s: State) {
    forall step :: Internal(step) ==> !Enabled(s, step)
  }

  /** When such a run can go no further on an open subscriber, the consumer has received the whole
      pipeline, with every critical event ever published, in order and exactly once; and the
      subscriber has room for normal events again. */
  lemma QuiescentMeansDelivered(s: State)
    requires Inv(s) && s.closer.Open? && Quiescent(s)
    ensures Criticals(s.received) == Criticals(s.published)
    ensures SelectedFrom(s.received, s.published) && s.received == s.Pipeline()
    ensures Roomy(s)
  {
    assert !Enabled(s, Notify) && !Enabled(s, Check) && !Enabled(s, Wake);
    assert !Enabled(s, Send) && !Enabled(s, Receive);
    assert s.Pipeline() == s.received;
  }

  /** A new subscriber is open, has nothing and owes nothing, and takes the first event at once. */
  lemma FreshSubscriber(critical: bool)
    ensures var s, t := Init(), Apply(Init(), Publish(critical));
      && Inv(s) && Roomy(s) && s.closer.Open? && s.published == [] && s.Pipeline() == []
      && !s.notify && s.notifiers == 0
      && t.out == [Event(0, critical)] && t.published == [Event(0, critical)]
  {
  }

  /** How many of its four statements close has made. */
  function Stage(c: Closer): nat {
    match c case Open => 0 case Marked => 1 case Signalled => 2 case Joined => 3 case OutClosed => 4
  }

  /** Close can begin at any time and each of its statements takes it one on; nothing else moves it, and
      from the first one on nothing is published. */
  lemma CloseGoesOn(s: State, step: Step)
    requires Inv(s) && Enabled(s, step)
    ensures s.closer.Open? ==> Enabled(s, Mark)
    ensures Stage(Apply(s, step).closer)
         == Stage(s.closer) + (if step.Mark? || step.Signal? || step.Join? || step.CloseOut? then 1 else 0)
    ensures s.Closed() && step.Publish? ==> Apply(s, step) == s
  {
  }

  /** A close that can go no further is done, and the deliverer has stopped. */
  lemma QuiescentCloseIsDone(s: State)
    requires Inv(s) && s.Closed() && Quiescent(s)
    ensures s.closer.OutClosed? && s.deliverer.Stopped? && s.out == []
  {
    if !s.closer.OutClosed? {
      CloseNeverWaitsForTheConsumer(s);
    }
    assert !Enabled(s, Receive);
  }

  /** Once close has begun, only its own completion stops the protocol: as long as out is not
      closed some step other than the consumer's is enabled. */
  lemma CloseNeverWaitsForTheConsumer(s: State)
    requires Inv(s) && s.Closed() && !s.closer.OutClosed?
    ensures exists step :: Internal(step) && !step.Receive? && Enabled(s, step)
  {
    if s.closer.Marked? {
      assert Enabled(s, Signal);
    } else if s.closer.Joined? {
      assert Enabled(s, CloseOut);
    } else if s.deliverer.Stopped? {
      assert Enabled(s, Join);
    } else if s.deliverer.AtLoop? {
      assert Enabled(s, Check);
    } else {
      assert Enabled(s, Quit);
    }
  }

  // ---- the subscriber as an object ----

  /** The steps of one publish when nothing comes between them: the locked part and, when owed,
      the token. */
  function PublishSteps(s: State, critical: bool): (steps: seq<Step>)
    ensures Legal(s, steps)
  {
    if Apply(s, Publish(critical)).notifiers == s.notifiers + 1 then
      TwoSteps(s, Publish(critical), Notify);
      [Publish(critical), Notify]
    else
      OneStep(s, Publish(critical));
      [Publish(critical)]
  }

  lemma OneStep(s: State, step: Step)
    requires Enabled(s, step)
    ensures Legal(s, [step]) && Run(s, [step]) == Apply(s, step)
  {
    assert [step][1..] == [];
  }

  lemma TwoSteps(s: State, step: Step, next: Step)
    requires Enabled(s, step) && Enabled(Apply(s, step), next)
    ensures Legal(s, [step, next]) && Run(s, [step, next]) == Apply(Apply(s, step), next)
  {
    assert [step, next][1..] == [next];
    OneStep(Apply(s, step), next);
  }

  /** One publish as seen by one subscriber. */
  function Offered(s: State, critical: bool): State { Run(s, PublishSteps(s, critical)) }

  lemma OfferedIs(s: State, critical: bool)
    ensures var t := Apply(s, Publish(critical));
      Offered(s, critical) == if t.notifiers == s.notifiers + 1 then Apply(t, Notify) else t
  {
    if Apply(s, Publish(critical)).notifiers == s.notifiers + 1 {
      TwoSteps(s, Publish(critical), Notify);
    } else {
      OneStep(s, Publish(critical));
    }
  }

  lemma OfferKeepsInv(s: State, critical: bool)
    requires Inv(s)
    ensures Inv(Offered(s, critical))
  {
    RunKeepsInv(s, PublishSteps(s, critical));
  }

  class Subscriber {
    var critical: seq<Event>
    var criticalPending: bool
    var out: seq<Event>
    var notify: bool
    var deliverer: Deliverer
    var closer: Closer
    var published: seq<Event>
    ghost var notifiers: nat
    ghost var received: seq<Event>
    ghost var dropped: seq<Event>
    ghost var panicked: bool

    ghost function Snapshot(): State
      reads this
    {
      State(critical, criticalPending, out, notify, deliverer, closer, notifiers,
            published, received, dropped, panicked)
    }

    constructor ()
      ensures Snapshot() == Init()
    {
      critical, criticalPending, out, notify := [], false, [], false;
      deliverer, closer := AtLoop, Open;
      notifiers, published, received, dropped, panicked := 0, [], [], [], false;
    }

    /** A non-blocking send: reports whether the event went into the channel. */
    method TrySend(ev: Event) returns (sent: bool)
      modifies this`out, this`panicked
      ensures sent == old(Snapshot().CanSend())
      ensures Snapshot() == if sent then old(Snapshot().SendOut(ev)) else old(Snapshot())
    {
      if closer.OutClosed? {
        panicked := true;
        return true;
      }
      if |out| < QUEUE_LIMIT {
        out := out + [ev];
        return true;
      }
      return false;
    }

    /** publish up to its unlock; the caller owes a Notify when `wake` comes back true. The event
        carries its place among the events accepted so far. */
    method PublishUnderLock(isCritical: bool) returns (wake: bool)
      modifies this
      ensures Snapshot() == Apply(old(Snapshot()), Step.Publish(isCritical))
      ensures wake == (notifiers == old(notifiers) + 1)
    {
      wake := false;
      if !closer.Open? {
        return;
      }
      var ev := Event(|published|, isCritical);
      published := published + [ev];
      if !ev.critical && criticalPending {
        return;
      }
      if !ev.critical {
        var _ := TrySend(ev);
        return;
      }
      if !criticalPending {
        var sent := TrySend(ev);
        if sent {
          return;
        }
      }
      critical := critical + [ev];
      criticalPending := true;
      notifiers := notifiers + 1;
      wake := true;
    }

    method LeaveToken()
      requires Enabled(Snapshot(), Notify)
      modifies this
      ensures Snapshot() == Apply(old(Snapshot()), Notify)
    {
      if !notify {
        notify := true;
      }
      notifiers := notifiers - 1;
    }

    /** publish as a whole, when nothing comes between its two parts. */
    method Publish(isCritical: bool)
      modifies this
      ensures Snapshot() == Offered(old(Snapshot()), isCritical)
    {
      OfferedIs(Snapshot(), isCritical);
      var wake := PublishUnderLock(isCritical);
      if wake {
        LeaveToken();
      }
    }

    /** The locked part of one turn of the delivery loop. */
    method PopOrPark()
      requires Enabled(Snapshot(), Check)
      modifies this
      ensures Snapshot() == Apply(old(Snapshot()), Check)
    {
      if |critical| == 0 {
        criticalPending := false;
        deliverer := Parked;
        return;
      }
      var ev := critical[0];
      critical := critical[1..];
      deliverer := Holding(ev);
    }

    /** The parked select. Both channels may be ready; either branch may then be taken. */
    method AwaitToken()
      requires Enabled(Snapshot(), Wake) || (deliverer.Parked? && Enabled(Snapshot(), Quit))
      modifies this
      ensures (old(Enabled(Snapshot(), Wake)) && Snapshot() == Apply(old(Snapshot()), Wake))
           || (old(Enabled(Snapshot(), Quit)) && Snapshot() == Apply(old(Snapshot()), Quit))
    {
      if {
        case closer.Signalled? || closer.Joined? || closer.OutClosed? =>
          dropped := [];
          deliverer := Stopped;
        case notify =>
          notify := false;
          deliverer := AtLoop;
      }
    }

    /** The sending select. */
    method SendHeld()
      requires Enabled(Snapshot(), Send) || (deliverer.Holding? && Enabled(Snapshot(), Quit))
      modifies this
      ensures (old(Enabled(Snapshot(), Send)) && Snapshot() == Apply(old(Snapshot()), Send))
           || (old(Enabled(Snapshot(), Quit)) && Snapshot() == Apply(old(Snapshot()), Quit))
    {
      if {
        case closer.OutClosed? || |out| < QUEUE_LIMIT =>
          var _ := TrySend(deliverer.ev);
          deliverer := AtLoop;
        case closer.Signalled? || closer.Joined? || closer.OutClosed? =>
          dropped := [deliverer.ev];
          deliverer := Stopped;
      }
    }

    /** The next statement of close; joining waits for the deliverer. */
    method CloseStep()
      requires !closer.OutClosed? && (closer.Signalled? ==> deliverer.Stopped?)
      modifies this
      ensures Snapshot() == Apply(old(Snapshot()),
        match old(closer) case Open => Mark case Marked => Signal case Signalled => Join case _ => CloseOut)
    {
      match closer
      case Open => closer := Marked;
      case Marked => closer := Signalled;
      case Signalled => closer := Joined;
      case Joined => closer := OutClosed;
      case OutClosed => assert false;
    }

    method ReceiveOne() returns (ev: Event)
      requires Enabled(Snapshot(), Receive)
      modifies this
      ensures Snapshot() == Apply(old(Snapshot()), Receive) && ev == old(out[0])
    {
      ev := out[0];
      out := out[1..];
      received := received + [ev];
    }
  }

  /** The registry: every subscriber gets every published event offered exactly once, an identifier
      is never handed out twice, and what holds of every interleaving holds of every subscriber. */
  class Bus {
    var subs: map<int, Subscriber>
    var next: int

    ghost predicate Valid()
      reads this, subs.Values
    {
      && (forall i :: i in subs ==> i < next)
      && Distinct()
      && (forall i :: i in subs ==> Inv(subs[i].Snapshot()))
    }

    ghost predicate Distinct()
      reads this
    {
      forall i, j :: i in subs && j in subs && i != j ==> subs[i] != subs[j]
    }

    constructor ()
      ensures Valid() && subs == map[]
    {
      subs, next := map[], 0;
    }

    method Subscribe() returns (id: int)
      requires Valid()
      modifies this
      ensures Valid() && id == old(next) && id !in old(subs) && next == id + 1
      ensures subs.Keys == old(subs.Keys) + {id} && fresh(subs[id]) && subs[id].Snapshot() == Init()
      ensures forall i :: i in old(subs) ==> subs[i] == old(subs)[i]
    {
      id := next;
      next := next + 1;
      var sub := new Subscriber();
      subs := subs[id := sub];
    }

    method Publish(isCritical: bool)
      requires Valid()
      modifies subs.Values
      ensures Valid()
      ensures forall i :: i in subs ==> subs[i].Snapshot() == Offered(old(subs[i].Snapshot()), isCritical)
    {
      ghost var before := map i | i in subs :: subs[i].Snapshot();
      OfferAll(isCritical, before);
      forall i | i in subs
        ensures Inv(subs[i].Snapshot())
      {
        OfferKeepsInv(before[i], isCritical);
      }
    }

    method OfferAll(isCritical: bool, ghost before: map<int, State>)
      requires Distinct() && before.Keys == subs.Keys && forall i :: i in subs ==> subs[i].Snapshot() == before[i]
      modifies subs.Values
      ensures forall i :: i in subs ==> subs[i].Snapshot() == Offered(before[i], isCritical)
    {
      var todo: set<int> := subs.Keys;
      while todo != {}
        invariant todo <= subs.Keys
        invariant forall i :: i in subs ==>
          subs[i].Snapshot() == if i in todo then before[i] else Offered(before[i], isCritical)
        decreases todo
      {
        ghost var _ := SomeMember(todo);
        var id :| id in todo;
        todo := todo - {id};
        var sub := subs[id];
        assert sub in subs.Values;
        sub.Publish(isCritical);
      }
    }
  }
}
