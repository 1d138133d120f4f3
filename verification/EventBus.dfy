/** The in-process event bus as a protocol: publishers, the dispatch loop, one worker for each
    subscriber, and Stop, interleaved at every channel operation and lock section. */
module EventBus {
  import opened Wrappers

  const DEFAULT_BUFFER_SIZE := 256
  const SUBSCRIBER_QUEUE_SIZE := 64

  datatype Event = Event(kind: string, source: string, timestamp: Option<int>)

  /** A dropped delivery: which event, and how full the subscriber's queue was. */
  datatype Miss = Miss(event: nat, backlog: nat)

  /** Events in flight are named by their place in `accepted`. `handled`, `misses`, `first` and
      `bound` are history: the events handled, those dropped, and the first event fanned out with
      the subscriber registered and the first fanned out after it left. */
  datatype Subscriber = Subscriber(
    id: string, queue: seq<nat>, inHand: Option<nat>, quit: bool, exited: bool,
    handled: seq<nat>, misses: seq<Miss>, first: nat, bound: nat)

  /** Where the dispatch goroutine stands; it holds the read lock while Fanning. */
  datatype Dispatcher = Idle | Holding(event: nat) | Fanning(event: nat, next: nat) | Gone

  datatype Stopping = Running | Marked | Closed

  datatype BusState = BusState(
    capacity: nat, accepted: seq<Event>, ch: seq<nat>,
    subs: seq<Subscriber>, active: seq<nat>,
    dispatcher: Dispatcher, stopping: Stopping, wg: nat)

  datatype Step =
    | Publish(e: Event, now: int)
    | Subscribe(id: string)
    | Unsubscribe(id: string)
    | Receive
    | Lock
    | Offer
    | Unlock
    | DispatcherQuit
    | Take(s: nat)
    | Finish(s: nat)
    | WorkerQuit(s: nat)
    | StopMark
    | StopClose

  function New(bufSize: int): BusState {
    BusState(if bufSize <= 0 then DEFAULT_BUFFER_SIZE else bufSize, [], [], [], [], Idle, Running, 1)
  }

  /** The place of an id among the registered subscribers, or their number. */
  function Find(b: BusState, id: string, k: nat := 0): nat
    requires k <= |b.active| && forall i | 0 <= i < |b.active| :: b.active[i] < |b.subs|
    decreases |b.active| - k
  {
    if k == |b.active| || b.subs[b.active[k]].id == id then k else Find(b, id, k + 1)
  }

  /** Events below this number have been offered to every subscriber registered at the time. */
  function Frontier(b: BusState): nat {
    if b.dispatcher.Holding? || b.dispatcher.Fanning? then b.dispatcher.event
    else if |b.ch| <= |b.accepted| then |b.accepted| - |b.ch| else 0
  }

  predicate Done(b: BusState) {
    b.stopping.Closed?
  }

  /** Whether a goroutine can take the step now. Subscribe, Unsubscribe and Stop need the write
      lock, which the fan-out excludes; Stop is called once. */
  predicate Enabled(b: BusState, step: Step) {
    match step
    case Publish(_, _) => true
    case Subscribe(_) => !b.dispatcher.Fanning?
    case Unsubscribe(_) => !b.dispatcher.Fanning?
    case Receive => b.dispatcher.Idle? && b.ch != []
    case Lock => b.dispatcher.Holding?
    case Offer => b.dispatcher.Fanning? && b.dispatcher.next < |b.active|
    case Unlock => b.dispatcher.Fanning? && b.dispatcher.next == |b.active|
    case DispatcherQuit => b.dispatcher.Idle? && Done(b)
    case Take(s) => s < |b.subs| && Waiting(b.subs[s]) && b.subs[s].queue != []
    case Finish(s) => s < |b.subs| && !b.subs[s].exited && b.subs[s].inHand.Some?
    case WorkerQuit(s) => s < |b.subs| && Waiting(b.subs[s]) && (b.subs[s].quit || Done(b))
    case StopMark => b.stopping.Running? && !b.dispatcher.Fanning?
    case StopClose => b.stopping.Marked?
  }

  predicate Waiting(s: Subscriber) {
    !s.exited && s.inHand.None?
  }

  function Detach(b: BusState, k: nat): BusState
    requires k < |b.active| && b.active[k] < |b.subs|
  {
    var s := b.active[k];
    b.(subs := b.subs[s := b.subs[s].(quit := true, bound := Frontier(b))],
       active := b.active[..k] + b.active[k + 1..])
  }

  function Attach(b: BusState, id: string): BusState {
    var s := Subscriber(id, [], None, false, false, [], [], Frontier(b), Frontier(b));
    b.(subs := b.subs + [s], active := b.active + [|b.subs|], wg := b.wg + 1)
  }

  function Deliver(s: Subscriber, e: nat): Subscriber {
    if |s.queue| < SUBSCRIBER_QUEUE_SIZE then s.(queue := s.queue + [e])
    else s.(misses := s.misses + [Miss(e, |s.queue|)])
  }

  ghost predicate ActiveInRange(b: BusState) {
    forall i | 0 <= i < |b.active| :: b.active[i] < |b.subs|
  }

  function Stamp(e: Event, now: int): Event {
    if e.timestamp.None? then e.(timestamp := Some(now)) else e
  }

  function Next(b: BusState, step: Step): BusState
    requires Enabled(b, step) && ActiveInRange(b)
  {
    match step
    case Publish(e, now) =>
      if |b.ch| < b.capacity then
        b.(accepted := b.accepted + [Stamp(e, now)], ch := b.ch + [|b.accepted|])
      else b
    case Subscribe(id) =>
      if !b.stopping.Running? then b
      else
        var k := Find(b, id);
        Attach(if k < |b.active| then Detach(b, k) else b, id)
    case Unsubscribe(id) =>
      var k := Find(b, id);
      if k < |b.active| then Detach(b, k) else b
    case Receive => b.(dispatcher := Holding(b.ch[0]), ch := b.ch[1..])
    case Lock => b.(dispatcher := Fanning(b.dispatcher.event, 0))
    case Offer =>
      var s := b.active[b.dispatcher.next];
      b.(subs := b.subs[s := Deliver(b.subs[s], b.dispatcher.event)],
         dispatcher := b.dispatcher.(next := b.dispatcher.next + 1))
    case Unlock => b.(dispatcher := Idle)
    case DispatcherQuit => b.(dispatcher := Gone, wg := if b.wg > 0 then b.wg - 1 else 0)
    case Take(s) =>
      b.(subs := b.subs[s := b.subs[s].(inHand := Some(b.subs[s].queue[0]), queue := b.subs[s].queue[1..])])
    case Finish(s) =>
      b.(subs := b.subs[s := b.subs[s].(handled := b.subs[s].handled + [b.subs[s].inHand.value], inHand := None)])
    case WorkerQuit(s) =>
      b.(subs := b.subs[s := b.subs[s].(exited := true)], wg := if b.wg > 0 then b.wg - 1 else 0)
    case StopMark => b.(stopping := Marked)
    case StopClose => b.(stopping := Closed)
  }

  // ---------------------------------------------------------------- the invariant

  /** What a subscriber has handled, is handling, and still has queued, in that order. */
  function Trace(s: Subscriber): seq<nat> {
    s.handled + (if s.inHand.Some? then [s.inHand.value] else []) + s.queue
  }

  ghost predicate Increasing(s: seq<nat>) {
    forall i, j | 0 <= i < j < |s| :: s[i] < s[j]
  }

  ghost predicate Missed(s: Subscriber, e: nat) {
    exists m :: m in s.misses && m.event == e
  }

  /** Events below this number have been offered to subscriber `s`. */
  function OfferedTo(b: BusState, s: nat): nat
    requires s < |b.subs|
  {
    if b.subs[s].quit then b.subs[s].bound
    else if b.dispatcher.Fanning? && s in b.active[..Min(b.dispatcher.next, |b.active|)] then b.dispatcher.event + 1
    else Frontier(b)
  }

  function Min(x: nat, y: nat): nat {
    if x < y then x else y
  }

  /** A subscriber that was offered events `first` to `upto` got each one once and in order, or
      missed it with its queue full. */
  ghost predicate Accounted(s: Subscriber, upto: nat) {
    && s.first <= upto
    && Increasing(Trace(s))
    && |s.queue| <= SUBSCRIBER_QUEUE_SIZE
    && (forall e: nat :: s.first <= e < upto <==> e in Trace(s) || Missed(s, e))
    && (forall e | e in Trace(s) :: !Missed(s, e))
    && (forall m | m in s.misses :: m.backlog == SUBSCRIBER_QUEUE_SIZE)
  }

  function Live(b: BusState): set<nat> {
    set s | 0 <= s < |b.subs| && !b.subs[s].exited
  }

  ghost predicate ChannelInv(b: BusState) {
    && 0 < b.capacity && |b.ch| <= b.capacity && |b.ch| <= |b.accepted|
    && (forall i | 0 <= i < |b.ch| :: b.ch[i] == |b.accepted| - |b.ch| + i)
    && (forall e | e in b.accepted :: e.timestamp.Some?)
    && (b.dispatcher.Holding? || b.dispatcher.Fanning? ==> b.dispatcher.event + 1 == |b.accepted| - |b.ch|)
    && (b.dispatcher.Fanning? ==> b.dispatcher.next <= |b.active|)
    && (b.dispatcher.Gone? ==> Done(b))
  }

  ghost predicate DistinctIds(b: BusState)
    requires ActiveInRange(b)
  {
    forall i, j | 0 <= i < j < |b.active| ::
      b.active[i] != b.active[j] && b.subs[b.active[i]].id != b.subs[b.active[j]].id
  }

  ghost predicate OpenIffActive(b: BusState) {
    forall s | 0 <= s < |b.subs| :: s in b.active <==> !b.subs[s].quit
  }

  ghost predicate ExitsJustified(b: BusState) {
    forall s | 0 <= s < |b.subs| && b.subs[s].exited :: b.subs[s].inHand.None? && (b.subs[s].quit || Done(b))
  }

  /** The registered subscribers are those whose quit channel is open, each listed once, under
      pairwise distinct ids. */
  ghost predicate RegistryInv(b: BusState) {
    ActiveInRange(b) && DistinctIds(b) && OpenIffActive(b) && ExitsJustified(b)
  }

  ghost predicate AccountsInv(b: BusState) {
    forall s | 0 <= s < |b.subs| :: Accounted(b.subs[s], OfferedTo(b, s)) && b.subs[s].bound <= Frontier(b)
  }

  ghost predicate Inv(b: BusState) {
    && ChannelInv(b)
    && RegistryInv(b)
    && AccountsInv(b)
    && b.wg == |Live(b)| + (if b.dispatcher.Gone? then 0 else 1)
  }

  lemma {:induction false} InitInv(bufSize: int)
    ensures Inv(New(bufSize))
  {
    assert Live(New(bufSize)) == {};
  }

  /** Delivery extends the trace or the misses by the event offered. */
  lemma {:induction false} DeliverAccounted(s: Subscriber, e: nat)
    requires Accounted(s, e)
    ensures Accounted(Deliver(s, e), e + 1)
  {
    var t := Deliver(s, e);
    if |s.queue| < SUBSCRIBER_QUEUE_SIZE {
      assert Trace(t) == Trace(s) + [e];
      assert forall i | 0 <= i < |Trace(s)| :: Trace(s)[i] in Trace(s);
      forall x: nat ensures s.first <= x < e + 1 <==> x in Trace(t) || Missed(t, x) {
        assert x in Trace(t) <==> x in Trace(s) || x == e;
        assert Missed(t, x) <==> Missed(s, x);
      }
      assert !Missed(s, e);
    } else {
      assert Trace(t) == Trace(s);
      assert Miss(e, |s.queue|) in t.misses;
      forall x: nat ensures Missed(t, x) <==> Missed(s, x) || x == e {
        if Missed(s, x) {
          var m :| m in s.misses && m.event == x;
          assert m in t.misses;
        }
      }
    }
  }

  lemma {:induction false} LiveAfter(b: BusState, s: nat, t: Subscriber)
    requires s < |b.subs|
    ensures Live(b.(subs := b.subs[s := t])) == if t.exited then Live(b) - {s} else Live(b) + {s}
  {
  }

  lemma {:induction false} SameAccount(s: Subscriber, t: Subscriber, upto: nat)
    requires Accounted(s, upto) && |t.queue| <= SUBSCRIBER_QUEUE_SIZE
    requires Trace(t) == Trace(s) && t.misses == s.misses && t.first == s.first
    ensures Accounted(t, upto)
  {
    assert forall e :: Missed(t, e) <==> Missed(s, e);
  }

  lemma {:induction false} Without(s: seq<nat>, k: nat)
    requires k < |s| && forall i, j | 0 <= i < j < |s| :: s[i] != s[j]
    ensures var t := s[..k] + s[k + 1..];
      && (forall i | 0 <= i < |t| :: t[i] == s[if i < k then i else i + 1] && t[i] != s[k])
      && (forall x :: x in t <==> x in s && x != s[k])
  {
    var t := s[..k] + s[k + 1..];
    forall i | 0 <= i < |t| ensures t[i] == s[if i < k then i else i + 1] && t[i] != s[k] {
      var j := if i < k then i else i + 1;
      assert t[i] == s[j];
      if j < k { assert s[j] != s[k]; } else { assert s[k] != s[j]; }
    }
    forall x | x in s && x != s[k] ensures x in t {
      var i :| 0 <= i < |s| && s[i] == x;
      assert t[if i < k then i else i - 1] == x;
    }
  }

  lemma {:induction false} DetachedPlaces(b: BusState, k: nat)
    requires ActiveInRange(b) && DistinctIds(b) && k < |b.active|
    ensures forall i | 0 <= i < |Detach(b, k).active| ::
      && Detach(b, k).active[i] == b.active[if i < k then i else i + 1]
      && Detach(b, k).active[i] != b.active[k]
      && b.subs[Detach(b, k).active[i]].id == Detach(b, k).subs[Detach(b, k).active[i]].id
    ensures forall x :: x in Detach(b, k).active <==> x in b.active && x != b.active[k]
  {
    Without(b.active, k);
  }

  lemma {:induction false} DetachIds(b: BusState, k: nat)
    requires RegistryInv(b) && k < |b.active|
    ensures DistinctIds(Detach(b, k))
  {
    DetachedPlaces(b, k);
    var c := Detach(b, k);
    forall i, j | 0 <= i < j < |c.active|
      ensures c.active[i] != c.active[j] && c.subs[c.active[i]].id != c.subs[c.active[j]].id
    {
      var i', j' := if i < k then i else i + 1, if j < k then j else j + 1;
      assert c.active[i] == b.active[i'] && c.active[j] == b.active[j'] && i' < j';
    }
  }

  lemma {:induction false} DetachRegistry(b: BusState, k: nat)
    requires RegistryInv(b) && k < |b.active|
    ensures RegistryInv(Detach(b, k))
  {
    DetachIds(b, k);
    assert OpenIffActive(Detach(b, k)) by {
      DetachedPlaces(b, k);
    }
  }

  lemma {:induction false} DetachAccounts(b: BusState, k: nat)
    requires ChannelInv(b) && RegistryInv(b) && AccountsInv(b) && !b.dispatcher.Fanning? && k < |b.active|
    ensures AccountsInv(Detach(b, k))
  {
    var c, s := Detach(b, k), b.active[k];
    forall x | 0 <= x < |c.subs| ensures Accounted(c.subs[x], OfferedTo(c, x)) && c.subs[x].bound <= Frontier(c) {
      assert OfferedTo(c, x) == OfferedTo(b, x);
      SameAccount(b.subs[x], c.subs[x], OfferedTo(b, x));
    }
  }

  lemma {:induction false} DetachKeeps(b: BusState, k: nat)
    requires Inv(b) && !b.dispatcher.Fanning? && k < |b.active|
    ensures Inv(Detach(b, k))
  {
    DetachRegistry(b, k);
    DetachAccounts(b, k);
    LiveAfter(b, b.active[k], Detach(b, k).subs[b.active[k]]);
    assert Live(Detach(b, k)) == Live(b);
  }

  lemma {:induction false} AttachRegistry(b: BusState, id: string)
    requires RegistryInv(b) && forall i | 0 <= i < |b.active| :: b.subs[b.active[i]].id != id
    ensures RegistryInv(Attach(b, id))
  {
    var c := Attach(b, id);
    assert c.active[|b.active|] == |b.subs|;
    forall x | 0 <= x < |c.subs| ensures x in c.active <==> !c.subs[x].quit {
    }
  }

  lemma {:induction false} AttachAccounts(b: BusState, id: string)
    requires ChannelInv(b) && AccountsInv(b) && !b.dispatcher.Fanning?
    ensures AccountsInv(Attach(b, id))
  {
    var c, n := Attach(b, id), |b.subs|;
    forall x | 0 <= x < |c.subs| ensures Accounted(c.subs[x], OfferedTo(c, x)) && c.subs[x].bound <= Frontier(c) {
      if x == n {
        assert Trace(c.subs[n]) == [];
      } else {
        assert OfferedTo(c, x) == OfferedTo(b, x);
        assert Accounted(b.subs[x], OfferedTo(b, x));
      }
    }
  }

  lemma {:induction false} AttachKeeps(b: BusState, id: string)
    requires Inv(b) && !b.dispatcher.Fanning? && b.stopping.Running?
    requires forall i | 0 <= i < |b.active| :: b.subs[b.active[i]].id != id
    ensures Inv(Attach(b, id))
  {
    AttachRegistry(b, id);
    AttachAccounts(b, id);
    OneMoreLive(b, id);
  }

  lemma {:induction false} OneMoreLive(b: BusState, id: string)
    ensures |Live(Attach(b, id))| == |Live(b)| + 1
  {
    assert Live(Attach(b, id)) == Live(b) + {|b.subs|} && |b.subs| !in Live(b);
  }

  lemma {:induction false} FindIs(b: BusState, id: string, k: nat)
    requires ActiveInRange(b) && k <= |b.active|
    ensures k <= Find(b, id, k) <= |b.active|
    ensures Find(b, id, k) < |b.active| ==> b.subs[b.active[Find(b, id, k)]].id == id
    ensures forall i | k <= i < Find(b, id, k) :: b.subs[b.active[i]].id != id
    decreases |b.active| - k
  {
    if k < |b.active| && b.subs[b.active[k]].id != id {
      FindIs(b, id, k + 1);
    }
  }

  lemma {:induction false} SubscribeKeeps(b: BusState, id: string)
    requires Inv(b) && Enabled(b, Subscribe(id))
    ensures Inv(Next(b, Subscribe(id)))
  {
    if b.stopping.Running? {
      FindIs(b, id, 0);
      var k := Find(b, id);
      if k < |b.active| {
        DetachKeeps(b, k);
        DetachedPlaces(b, k);
        AttachKeeps(Detach(b, k), id);
      } else {
        AttachKeeps(b, id);
      }
    }
  }

  lemma {:induction false} UnsubscribeKeeps(b: BusState, id: string)
    requires Inv(b) && Enabled(b, Unsubscribe(id))
    ensures Inv(Next(b, Unsubscribe(id)))
  {
    FindIs(b, id, 0);
    if Find(b, id) < |b.active| {
      DetachKeeps(b, Find(b, id));
    }
  }

  /** Steps that touch no subscriber leave every account as it stands. */
  lemma {:induction false} DispatcherAccounts(b: BusState, step: Step, s: nat)
    requires ChannelInv(b) && RegistryInv(b) && Enabled(b, step) && s < |b.subs|
    requires step.Publish? || step.Receive? || step.Lock? || step.Unlock? || step.DispatcherQuit? || step.StopMark? || step.StopClose?
    ensures OfferedTo(Next(b, step), s) == OfferedTo(b, s) && Frontier(b) <= Frontier(Next(b, step))
  {
    if step.Unlock? && !b.subs[s].quit {
      assert b.active[..|b.active|] == b.active;
    }
  }

  lemma {:induction false} DispatcherKeeps(b: BusState, step: Step)
    requires Inv(b) && Enabled(b, step)
    requires step.Publish? || step.Receive? || step.Lock? || step.Unlock? || step.DispatcherQuit? || step.StopMark? || step.StopClose?
    ensures Inv(Next(b, step))
  {
    var c := Next(b, step);
    assert c.subs == b.subs && c.active == b.active;
    assert Live(c) == Live(b);
    assert RegistryInv(c);
    assert ChannelInv(c);
    forall s | 0 <= s < |c.subs| ensures Accounted(c.subs[s], OfferedTo(c, s)) && c.subs[s].bound <= Frontier(c) {
      DispatcherAccounts(b, step, s);
      assert Accounted(b.subs[s], OfferedTo(b, s));
    }
  }

  /** One subscriber changes, under the same id and with its quit channel as it was. */
  lemma {:induction false} ReplaceKeepsRegistry(b: BusState, c: BusState, s: nat, t: Subscriber)
    requires RegistryInv(b) && s < |b.subs| && t.id == b.subs[s].id && t.quit == b.subs[s].quit
    requires t.exited ==> t.inHand.None? && (t.quit || Done(b))
    requires c.subs == b.subs[s := t] && c.active == b.active && c.stopping == b.stopping
    ensures RegistryInv(c)
  {
  }

  lemma {:induction false} OfferAccounts(b: BusState, x: nat)
    requires ChannelInv(b) && RegistryInv(b) && AccountsInv(b) && Enabled(b, Offer) && x < |b.subs|
    ensures Accounted(Next(b, Offer).subs[x], OfferedTo(Next(b, Offer), x))
    ensures Next(b, Offer).subs[x].bound == b.subs[x].bound && Frontier(Next(b, Offer)) == Frontier(b)
  {
    var c, k := Next(b, Offer), b.dispatcher.next;
    var s := b.active[k];
    assert b.active[..k + 1] == b.active[..k] + [s];
    assert s !in b.active[..k];
    assert Accounted(b.subs[x], OfferedTo(b, x));
    if x == s {
      DeliverAccounted(b.subs[s], b.dispatcher.event);
    }
  }

  lemma {:induction false} OfferKeeps(b: BusState)
    requires Inv(b) && Enabled(b, Offer)
    ensures Inv(Next(b, Offer))
  {
    var c, s := Next(b, Offer), b.active[b.dispatcher.next];
    ReplaceKeepsRegistry(b, c, s, c.subs[s]);
    LiveAfter(b, s, c.subs[s]);
    assert Live(c) == Live(b);
    forall x | 0 <= x < |c.subs| ensures Accounted(c.subs[x], OfferedTo(c, x)) && c.subs[x].bound <= Frontier(c) {
      OfferAccounts(b, x);
    }
  }

  lemma {:induction false} WorkerAccounts(b: BusState, step: Step, s: nat, x: nat)
    requires AccountsInv(b) && RegistryInv(b) && Enabled(b, step) && x < |b.subs|
    requires step == Take(s) || step == Finish(s) || step == WorkerQuit(s)
    ensures Accounted(Next(b, step).subs[x], OfferedTo(Next(b, step), x))
    ensures Next(b, step).subs[x].bound == b.subs[x].bound && Frontier(Next(b, step)) == Frontier(b)
  {
    var c := Next(b, step);
    assert OfferedTo(c, x) == OfferedTo(b, x);
    assert Trace(c.subs[x]) == Trace(b.subs[x]);
    SameAccount(b.subs[x], c.subs[x], OfferedTo(b, x));
  }

  lemma {:induction false} WorkerKeeps(b: BusState, step: Step, s: nat)
    requires Inv(b) && Enabled(b, step) && (step == Take(s) || step == Finish(s) || step == WorkerQuit(s))
    ensures Inv(Next(b, step))
  {
    var c := Next(b, step);
    ReplaceKeepsRegistry(b, c, s, c.subs[s]);
    LiveAfter(b, s, c.subs[s]);
    assert s in Live(b);
    assert Live(c) == if step.WorkerQuit? then Live(b) - {s} else Live(b);
    forall x | 0 <= x < |c.subs| ensures Accounted(c.subs[x], OfferedTo(c, x)) && c.subs[x].bound <= Frontier(c) {
      WorkerAccounts(b, step, s, x);
    }
  }

  /** Every step of every goroutine keeps the invariant. */
  lemma {:induction false} StepKeepsInv(b: BusState, step: Step)
    requires Inv(b) && Enabled(b, step)
    ensures Inv(Next(b, step))
  {
    match step
    case Subscribe(id) => SubscribeKeeps(b, id);
    case Unsubscribe(id) => UnsubscribeKeeps(b, id);
    case Offer => OfferKeeps(b);
    case Take(s) => WorkerKeeps(b, step, s);
    case Finish(s) => WorkerKeeps(b, step, s);
    case WorkerQuit(s) => WorkerKeeps(b, step, s);
    case _ => DispatcherKeeps(b, step);
  }

  // ---------------------------------------------------------------- every run

  ghost predicate Runs(b: BusState, steps: seq<Step>, c: BusState)
    decreases |steps|
  {
    if steps == [] then b == c
    else ActiveInRange(b) && Enabled(b, steps[0]) && Runs(Next(b, steps[0]), steps[1..], c)
  }

  lemma {:induction false} RunKeepsInv(b: BusState, steps: seq<Step>, c: BusState)
    requires Inv(b) && Runs(b, steps, c)
    ensures Inv(c)
    decreases |steps|
  {
    if steps != [] {
      StepKeepsInv(b, steps[0]);
      RunKeepsInv(Next(b, steps[0]), steps[1..], c);
    }
  }

  lemma {:induction false} RunKeepsCapacity(b: BusState, steps: seq<Step>, c: BusState)
    requires Runs(b, steps, c)
    ensures c.capacity == b.capacity
    decreases |steps|
  {
    if steps != [] {
      RunKeepsCapacity(Next(b, steps[0]), steps[1..], c);
    }
  }

  /** In every interleaving: what a subscriber has handled, followed by its queue, is an in-order,
      duplicate-free subsequence of the accepted events; both kinds of queue stay within their
      bounds; and of the events fanned out while it was registered it lacks exactly those that met
      its own queue full. */
  lemma {:induction false} EveryRunDelivers(bufSize: int, steps: seq<Step>, c: BusState, s: nat)
    requires Runs(New(bufSize), steps, c) && s < |c.subs|
    ensures var sub := c.subs[s];
      && Increasing(Trace(sub)) && (forall e | e in Trace(sub) :: e < |c.accepted|)
      && |sub.queue| <= 64 && |c.ch| <= (if bufSize <= 0 then 256 else bufSize)
      && (forall e: nat | sub.first <= e < OfferedTo(c, s) && e !in Trace(sub) ::
            exists m :: m in sub.misses && m == Miss(e, 64))
      && (forall e | e in Trace(sub) :: sub.first <= e < OfferedTo(c, s))
  {
    InitInv(bufSize);
    RunKeepsInv(New(bufSize), steps, c);
    var sub := c.subs[s];
    assert Accounted(sub, OfferedTo(c, s));
    OffersAreAccepted(c, s);
    RunKeepsCapacity(New(bufSize), steps, c);
    forall e: nat | sub.first <= e < OfferedTo(c, s) && e !in Trace(sub)
      ensures exists m :: m in sub.misses && m == Miss(e, 64)
    {
      var m :| m in sub.misses && m.event == e;
      assert m == Miss(e, 64);
    }
  }

  lemma {:induction false} OffersAreAccepted(b: BusState, s: nat)
    requires Inv(b) && s < |b.subs|
    ensures forall e | e in Trace(b.subs[s]) :: e < |b.accepted|
  {
    assert Accounted(b.subs[s], OfferedTo(b, s));
  }

  ghost predicate Prefix(s: seq<nat>, t: seq<nat>) {
    |s| <= |t| && t[..|s|] == s
  }

  /** From `b` to `c` the history of subscriber `s` only grows: its trace and what it handled gain
      at the end, its quit channel is closed exactly when it leaves the list - and was open until
      then - and a worker that has exited stays so. */
  ghost predicate HistoryKept(b: BusState, c: BusState, s: nat)
    requires s < |b.subs|
  {
    && s < |c.subs|
    && Prefix(b.subs[s].handled, c.subs[s].handled) && Prefix(Trace(b.subs[s]), Trace(c.subs[s]))
    && (c.subs[s].quit <==> b.subs[s].quit || (s in b.active && s !in c.active))
    && (s in b.active ==> !b.subs[s].quit)
    && (b.subs[s].exited ==> c.subs[s].exited)
  }

  lemma {:induction false} DetachHistory(b: BusState, k: nat, s: nat)
    requires RegistryInv(b) && k < |b.active| && s < |b.subs|
    ensures HistoryKept(b, Detach(b, k), s)
  {
    DetachedPlaces(b, k);
    assert Trace(Detach(b, k).subs[s]) == Trace(b.subs[s]);
  }

  lemma {:induction false} SubscribeHistory(b: BusState, id: string, s: nat)
    requires RegistryInv(b) && Enabled(b, Subscribe(id)) && s < |b.subs|
    ensures HistoryKept(b, Next(b, Subscribe(id)), s)
  {
    FindIs(b, id, 0);
    var k := Find(b, id);
    if k < |b.active| {
      DetachHistory(b, k, s);
    }
    var d := if k < |b.active| then Detach(b, k) else b;
    assert Attach(d, id).subs[s] == d.subs[s];
    assert s in Attach(d, id).active <==> s in d.active;
  }

  lemma {:induction false} OtherHistory(b: BusState, step: Step, s: nat)
    requires RegistryInv(b) && Enabled(b, step) && s < |b.subs| && !step.Subscribe? && !step.Unsubscribe?
    ensures HistoryKept(b, Next(b, step), s)
  {
    var c := Next(b, step);
    assert c.active == b.active;
    if step.Offer? && s == b.active[b.dispatcher.next] && |b.subs[s].queue| < SUBSCRIBER_QUEUE_SIZE {
      assert Trace(c.subs[s]) == Trace(b.subs[s]) + [b.dispatcher.event];
    } else {
      assert Trace(c.subs[s]) == Trace(b.subs[s]);
    }
  }

  lemma {:induction false} StepKeepsHistory(b: BusState, step: Step, s: nat)
    requires RegistryInv(b) && Enabled(b, step) && s < |b.subs|
    ensures HistoryKept(b, Next(b, step), s)
  {
    match step
    case Subscribe(id) => SubscribeHistory(b, id, s);
    case Unsubscribe(id) =>
      FindIs(b, id, 0);
      if Find(b, id) < |b.active| {
        DetachHistory(b, Find(b, id), s);
      }
    case _ => OtherHistory(b, step, s);
  }

  lemma {:induction false} PrefixOfPrefix(s: seq<nat>, t: seq<nat>, u: seq<nat>)
    requires Prefix(s, t) && Prefix(t, u)
    ensures Prefix(s, u)
  {
    assert u[..|s|] == u[..|t|][..|s|];
  }

  ghost predicate HistoryGrows(b: BusState, c: BusState, s: nat)
    requires s < |b.subs|
  {
    && s < |c.subs|
    && Prefix(b.subs[s].handled, c.subs[s].handled) && Prefix(Trace(b.subs[s]), Trace(c.subs[s]))
    && (b.subs[s].quit ==> c.subs[s].quit && s !in c.active)
  }

  lemma {:induction false} HistoryGoesOn(b: BusState, d: BusState, c: BusState, s: nat)
    requires s < |b.subs| && HistoryKept(b, d, s) && HistoryGrows(d, c, s)
    ensures HistoryGrows(b, c, s)
  {
    PrefixOfPrefix(b.subs[s].handled, d.subs[s].handled, c.subs[s].handled);
    PrefixOfPrefix(Trace(b.subs[s]), Trace(d.subs[s]), Trace(c.subs[s]));
  }

  /** Over a whole run: what was handled stays handled, in the same places, and a quit channel
      once closed belongs to a subscriber that never returns to the list. */
  lemma {:induction false} RunKeepsHistory(b: BusState, steps: seq<Step>, c: BusState, s: nat)
    requires Inv(b) && Runs(b, steps, c) && s < |b.subs|
    ensures HistoryGrows(b, c, s)
    decreases |steps|
  {
    if steps == [] {
      assert OpenIffActive(b);
    } else {
      var d := Next(b, steps[0]);
      StepKeepsHistory(b, steps[0], s);
      StepKeepsInv(b, steps[0]);
      RunKeepsHistory(d, steps[1..], c, s);
      HistoryGoesOn(b, d, c, s);
    }
  }

  /** Once Stop has marked the bus stopped, the wait group can only shrink, so the Wait that
      follows never races with an Add. */
  lemma {:induction false} NoAddAfterStop(b: BusState, steps: seq<Step>, c: BusState)
    requires Inv(b) && Runs(b, steps, c) && !b.stopping.Running?
    ensures c.wg <= b.wg && !c.stopping.Running?
    decreases |steps|
  {
    if steps != [] {
      StepKeepsInv(b, steps[0]);
      NoAddAfterStop(Next(b, steps[0]), steps[1..], c);
    }
  }

  /** The wait group counts the goroutines that have not returned. */
  lemma {:induction false} WaitGroupCountsGoroutines(bufSize: int, steps: seq<Step>, c: BusState)
    requires Runs(New(bufSize), steps, c)
    ensures c.wg == |set s | 0 <= s < |c.subs| && !c.subs[s].exited| + (if c.dispatcher.Gone? then 0 else 1)
  {
    InitInv(bufSize);
    RunKeepsInv(New(bufSize), steps, c);
  }

  /** Whatever comes and goes: registered ids are pairwise different, and a quit channel is closed
      exactly when its subscriber is off the list. */
  lemma {:induction false} RegistryIsSound(bufSize: int, steps: seq<Step>, c: BusState)
    requires Runs(New(bufSize), steps, c)
    ensures ActiveInRange(c) && DistinctIds(c)
    ensures forall s | 0 <= s < |c.subs| :: c.subs[s].quit <==> s !in c.active
  {
    InitInv(bufSize);
    RunKeepsInv(New(bufSize), steps, c);
  }

  /** Only an open quit channel is ever closed, and a closed one stays closed. */
  lemma {:induction false} QuitClosesOnce(b: BusState, step: Step, s: nat)
    requires Inv(b) && Enabled(b, step) && s < |b.subs|
    ensures s < |Next(b, step).subs|
    ensures b.subs[s].quit ==> Next(b, step).subs[s].quit
    ensures !b.subs[s].quit && Next(b, step).subs[s].quit ==> s in b.active && s !in Next(b, step).active
  {
    StepKeepsInv(b, step);
    match step
    case Subscribe(id) => FindIs(b, id, 0);
    case Unsubscribe(id) => FindIs(b, id, 0);
    case _ =>
  }

  function DispatcherWork(b: BusState): nat {
    match b.dispatcher
    case Gone => 0
    case Idle => 1
    case Fanning(_, next) => 2 + (if next <= |b.active| then |b.active| - next else 0)
    case Holding(_) => 3 + |b.active|
  }

  function Busy(b: BusState): set<nat> {
    set s | 0 <= s < |b.subs| && b.subs[s].inHand.Some?
  }

  lemma {:induction false} BusyAfter(b: BusState, s: nat, t: Subscriber)
    requires s < |b.subs| && t.inHand.None?
    ensures Busy(b.(subs := b.subs[s := t])) == Busy(b) - {s}
  {
  }

  lemma {:induction false} InHandAfter(b: BusState, step: Step, s: nat)
    requires ActiveInRange(b) && Enabled(b, step) && (step == Finish(s) || step == WorkerQuit(s))
    ensures |Live(Next(b, step))| + |Busy(Next(b, step))| < |Live(b)| + |Busy(b)|
  {
    var t := Next(b, step).subs[s];
    var c := b.(subs := b.subs[s := t]);
    assert Busy(Next(b, step)) == Busy(c) && Live(Next(b, step)) == Live(c);
    BusyAfter(b, s, t);
    LiveAfter(b, s, t);
    assert s in Live(b);
    if step.WorkerQuit? {
      assert Busy(b) - {s} == Busy(b);
    } else {
      assert s in Busy(b) && Live(b) + {s} == Live(b);
    }
  }

  /** From every reachable state with the done channel closed, the goroutines can all return: no
      lock, queue or channel keeps Stop waiting, whatever is still buffered. */
  lemma {:induction false} StopCanFinish(b: BusState) returns (steps: seq<Step>, c: BusState)
    requires Inv(b) && Done(b)
    ensures Runs(b, steps, c) && c.wg == 0
    decreases DispatcherWork(b), |Live(b)| + |Busy(b)|
  {
    var step;
    match b.dispatcher {
      case Holding(_) => step := Lock;
      case Fanning(_, next) => step := if next < |b.active| then Offer else Unlock;
      case Idle => step := DispatcherQuit;
      case Gone =>
        if Live(b) == {} {
          return [], b;
        }
        var s :| s in Live(b);
        step := if b.subs[s].inHand.Some? then Finish(s) else WorkerQuit(s);
        InHandAfter(b, step, s);
    }
    StepKeepsInv(b, step);
    steps, c := StopCanFinish(Next(b, step));
    steps := [step] + steps;
  }

  // ---------------------------------------------------------------- Stop comes to an end

  /** The steps of the dispatcher, the workers and Stop itself, as against those of callers. */
  predicate OfTheBus(step: Step) {
    !step.Publish? && !step.Subscribe? && !step.Unsubscribe? && !step.StopMark?
  }

  /** A queued event is still to be taken and finished, one in hand to be finished. */
  function Backlog(s: Subscriber): nat {
    2 * |s.queue| + (if s.inHand.Some? then 1 else 0) + (if s.exited then 0 else 1)
  }

  function Backlogs(subs: seq<Subscriber>): nat {
    if subs == [] then 0 else Backlogs(subs[..|subs| - 1]) + Backlog(subs[|subs| - 1])
  }

  /** An event costs its receipt, the lock, the unlocking, and an offer to each registered
      subscriber, which may queue it. */
  function EventCost(b: BusState): nat {
    3 + 3 * |b.active|
  }

  function FanOutLeft(b: BusState): nat {
    match b.dispatcher
    case Gone => 0
    case Idle => 1
    case Holding(_) => EventCost(b)
    case Fanning(_, next) => 2 + 3 * (if next <= |b.active| then |b.active| - next else 0)
  }

  /** What is left to do until every goroutine has returned. */
  function Work(b: BusState): nat {
    |b.ch| * EventCost(b) + FanOutLeft(b) + Backlogs(b.subs) + (if b.stopping.Closed? then 0 else 1)
  }

  lemma {:induction false} BacklogsAfter(subs: seq<Subscriber>, s: nat, t: Subscriber)
    requires s < |subs|
    ensures Backlogs(subs[s := t]) == Backlogs(subs) - Backlog(subs[s]) + Backlog(t)
    decreases |subs|
  {
    var n := |subs| - 1;
    if s < n {
      BacklogsAfter(subs[..n], s, t);
      assert subs[s := t][..n] == subs[..n][s := t];
    } else {
      assert subs[s := t][..n] == subs[..n];
    }
  }

  lemma {:induction false} ReceiveWorks(b: BusState)
    requires Enabled(b, Receive) && ActiveInRange(b)
    ensures Work(Next(b, Receive)) < Work(b)
  {
    var n, cost := |b.ch|, EventCost(b);
    assert n * cost == (n - 1) * cost + cost;
  }

  lemma {:induction false} WorkerWorks(b: BusState, step: Step, s: nat)
    requires Enabled(b, step) && ActiveInRange(b) && (step == Take(s) || step == Finish(s) || step == WorkerQuit(s))
    ensures Work(Next(b, step)) < Work(b)
  {
    BacklogsAfter(b.subs, s, Next(b, step).subs[s]);
  }

  lemma {:induction false} OfferWorks(b: BusState)
    requires Enabled(b, Offer) && ActiveInRange(b)
    ensures Work(Next(b, Offer)) < Work(b)
  {
    var s := b.active[b.dispatcher.next];
    BacklogsAfter(b.subs, s, Next(b, Offer).subs[s]);
  }

  /** Whatever step of its own the bus takes, less is left to do. */
  lemma {:induction false} StepWorks(b: BusState, step: Step)
    requires Inv(b) && Enabled(b, step) && OfTheBus(step)
    ensures Work(Next(b, step)) < Work(b)
  {
    match step
    case Receive => ReceiveWorks(b);
    case Offer => OfferWorks(b);
    case Take(s) => WorkerWorks(b, step, s);
    case Finish(s) => WorkerWorks(b, step, s);
    case WorkerQuit(s) => WorkerWorks(b, step, s);
    case _ =>
  }

  ghost predicate Stuck(b: BusState) {
    forall step | OfTheBus(step) :: !Enabled(b, step)
  }

  /** Once Stop was called the bus can only be stuck with every goroutine gone. */
  lemma {:induction false} StuckIsOver(b: BusState)
    requires Inv(b) && !b.stopping.Running? && Stuck(b)
    ensures b.wg == 0
  {
    assert !Enabled(b, StopClose) && !Enabled(b, DispatcherQuit) && !Enabled(b, Lock) && !Enabled(b, Offer) && !Enabled(b, Unlock);
    assert b.dispatcher.Gone?;
    forall s | 0 <= s < |b.subs|
      ensures b.subs[s].exited
    {
      assert !Enabled(b, Finish(s)) && !Enabled(b, WorkerQuit(s));
    }
    assert Live(b) == {};
  }

  /** However the goroutines are scheduled after Stop has marked the bus, with nobody publishing or
      subscribing any more: they take no more steps than there is work, and when they can take no
      further one all of them have returned, so the Wait of Stop returns. */
  lemma {:induction false} StopFinishes(b: BusState, steps: seq<Step>, c: BusState)
    requires Inv(b) && !b.stopping.Running? && Runs(b, steps, c)
    requires forall i | 0 <= i < |steps| :: OfTheBus(steps[i])
    ensures |steps| <= Work(b)
    ensures |steps| + Work(c) <= Work(b)
    ensures Stuck(c) ==> c.wg == 0
    decreases |steps|
  {
    if steps == [] {
      if Stuck(c) {
        StuckIsOver(c);
      }
    } else {
      StepKeepsInv(b, steps[0]);
      StepWorks(b, steps[0]);
      StopFinishes(Next(b, steps[0]), steps[1..], c);
    }
  }

  /** An event is lost at Publish only when the bus holds as many as it may; otherwise it is
      accepted last, with a timestamp. */
  lemma {:induction false} PublishLosesOnlyWhenFull(b: BusState, e: Event, now: int)
    requires Inv(b)
    ensures var c := Next(b, Publish(e, now));
      if |b.ch| == b.capacity then c == b
      else
        && c.accepted == b.accepted + [Event(e.kind, e.source, Some(if e.timestamp.Some? then e.timestamp.value else now))]
        && c.ch == b.ch + [|b.accepted|]
  {
  }

  /** What a row of publications leaves of a bus that nobody reads from. */
  lemma {:induction false} PublishedInARow(b: BusState, steps: seq<Step>, c: BusState)
    requires |b.ch| == |b.accepted| <= b.capacity && Runs(b, steps, c) && forall i | 0 <= i < |steps| :: steps[i].Publish?
    ensures |c.ch| == |c.accepted| == (if |b.ch| + |steps| <= b.capacity then |b.ch| + |steps| else b.capacity)
    ensures b.accepted <= c.accepted
    ensures forall i | 0 <= i < |c.accepted| - |b.accepted| ::
      c.accepted[|b.accepted| + i].kind == steps[i].e.kind && c.accepted[|b.accepted| + i].source == steps[i].e.source
    decreases |steps|
  {
    if steps != [] {
      PublishedInARow(Next(b, steps[0]), steps[1..], c);
    }
  }

  /** A fresh bus accepts as many events in a row as it was made for, 256 when no number was given,
      in the order they came, and none after them. */
  lemma {:induction false} FreshBusHolds(bufSize: int, steps: seq<Step>, c: BusState)
    requires Runs(New(bufSize), steps, c) && forall i | 0 <= i < |steps| :: steps[i].Publish?
    ensures var size := if bufSize <= 0 then 256 else bufSize;
      |c.accepted| == if |steps| <= size then |steps| else size
    ensures forall i | 0 <= i < |c.accepted| ::
      c.accepted[i].kind == steps[i].e.kind && c.accepted[i].source == steps[i].e.source
  {
    PublishedInARow(New(bufSize), steps, c);
  }

  /** After Subscribe on a running bus exactly one registered subscriber has the id, a new one with
      an empty queue; after Unsubscribe none has; everyone else stays registered. */
  lemma {:induction false} RegistrationIsById(b: BusState, id: string, s: nat)
    requires Inv(b) && !b.dispatcher.Fanning? && s < |b.subs|
    ensures b.stopping.Running? ==>
      var c := Next(b, Subscribe(id));
      && |b.subs| in c.active && c.subs[|b.subs|].id == id && c.subs[|b.subs|].queue == []
      && (s in c.active <==> s in b.active && b.subs[s].id != id)
    ensures s in Next(b, Unsubscribe(id)).active <==> s in b.active && b.subs[s].id != id
  {
    FindIs(b, id, 0);
    var k := Find(b, id);
    if k < |b.active| {
      DetachedPlaces(b, k);
    }
    if s in b.active {
      var i :| 0 <= i < |b.active| && b.active[i] == s;
      assert b.subs[s].id == id <==> i == k;
    }
    var d := if k < |b.active| then Detach(b, k) else b;
    assert Attach(d, id).active[|d.active|] == |b.subs|;
  }

  /** The subscribers once `e` was offered to the first `k` registered ones. */
  function Offered(subs: seq<Subscriber>, active: seq<nat>, k: nat, e: nat): seq<Subscriber>
    requires k <= |active|
  {
    seq(|subs|, s requires 0 <= s < |subs| => if s in active[..k] then Deliver(subs[s], e) else subs[s])
  }

  function FanningAt(b: BusState, k: nat): BusState
    requires b.dispatcher.Fanning? && k <= |b.active|
  {
    b.(subs := Offered(b.subs, b.active, k, b.dispatcher.event), dispatcher := Fanning(b.dispatcher.event, k))
  }

  lemma {:induction false} FanningStart(b: BusState)
    requires b.dispatcher.Fanning? && b.dispatcher.next == 0
    ensures FanningAt(b, 0) == b
  {
    assert Offered(b.subs, b.active, 0, b.dispatcher.event) == b.subs;
  }

  lemma {:induction false} FanningStep(b: BusState, k: nat)
    requires ActiveInRange(b) && DistinctIds(b) && k < |b.active| && b.dispatcher.Fanning?
    ensures ActiveInRange(FanningAt(b, k)) && Next(FanningAt(b, k), Offer) == FanningAt(b, k + 1)
  {
    var s, e := b.active[k], b.dispatcher.event;
    assert b.active[..k + 1] == b.active[..k] + [s] && s !in b.active[..k];
    assert Offered(b.subs, b.active, k + 1, e) == Offered(b.subs, b.active, k, e)[s := Deliver(b.subs[s], e)];
  }

  /** A fan-out that began in `start` has reached the first `k` registered subscribers. */
  ghost predicate FannedOut(start: BusState, k: nat, b: BusState) {
    && start.dispatcher.Fanning? && ActiveInRange(start) && DistinctIds(start)
    && k <= |start.active| == |b.active| && Inv(b) && b == FanningAt(start, k)
  }

  lemma {:induction false} FannedToAll(start: BusState, k: nat, b: BusState)
    requires FannedOut(start, k, b) && k >= |b.active|
    ensures Inv(b) && b == FanningAt(start, |start.active|)
  {
  }

  // ---------------------------------------------------------------- the bus object

  /** The Bus struct. Each method is what one goroutine does in one go: a lock section or a
      channel operation; its effect is a run of steps of the protocol above. */
  class Bus {
    const capacity: nat
    var accepted: seq<Event>
    var ch: seq<nat>
    var subs: seq<Subscriber>
    var active: seq<nat>
    var dispatcher: Dispatcher
    var stopping: Stopping
    var wg: nat

    ghost function State(): BusState
      reads this
    {
      BusState(capacity, accepted, ch, subs, active, dispatcher, stopping, wg)
    }

    constructor (bufSize: int)
      ensures State() == New(bufSize)
    {
      capacity := if bufSize <= 0 then DEFAULT_BUFFER_SIZE else bufSize;
      accepted, ch, subs, active, dispatcher, stopping, wg := [], [], [], [], Idle, Running, 1;
    }

    /** The search both Subscribe and Unsubscribe make over the registered subscribers. */
    method FindActive(id: string) returns (k: nat)
      requires ActiveInRange(State())
      ensures k == Find(State(), id)
    {
      k := 0;
      while k < |active|
        invariant k <= |active|
        invariant Find(State(), id) == Find(State(), id, k)
      {
        if subs[active[k]].id == id {
          return;
        }
        k := k + 1;
      }
    }

    method Close(k: nat)
      requires Inv(State()) && !dispatcher.Fanning? && k < |active|
      modifies this
      ensures State() == Detach(old(State()), k)
    {
      var s := active[k];
      var frontier := if dispatcher.Holding? then dispatcher.event else |accepted| - |ch|;
      subs := subs[s := subs[s].(quit := true, bound := frontier)];
      active := active[..k] + active[k + 1..];
    }

    method Open(id: string)
      requires ChannelInv(State())
      modifies this
      ensures State() == Attach(old(State()), id)
    {
      var frontier := if dispatcher.Holding? || dispatcher.Fanning? then dispatcher.event else |accepted| - |ch|;
      subs := subs + [Subscriber(id, [], None, false, false, [], [], frontier, frontier)];
      active := active + [|subs| - 1];
      wg := wg + 1;
    }

    method Subscribe(id: string)
      requires Inv(State()) && !dispatcher.Fanning?
      modifies this
      ensures State() == Next(old(State()), Step.Subscribe(id)) && Inv(State())
    {
      SubscribeKeeps(State(), id);
      if !stopping.Running? {
        return;
      }
      var k := FindActive(id);
      if k < |active| {
        DetachKeeps(State(), k);
        Close(k);
      }
      Open(id);
    }

    method Unsubscribe(id: string)
      requires Inv(State()) && !dispatcher.Fanning?
      modifies this
      ensures State() == Next(old(State()), Step.Unsubscribe(id)) && Inv(State())
    {
      UnsubscribeKeeps(State(), id);
      var k := FindActive(id);
      if k < |active| {
        Close(k);
      }
    }

    /** A non-blocking send on the bus channel. */
    method Publish(e: Event, now: int)
      requires Inv(State())
      modifies this
      ensures State() == Next(old(State()), Step.Publish(e, now)) && Inv(State())
    {
      DispatcherKeeps(State(), Step.Publish(e, now));
      var stamped := if e.timestamp.None? then e.(timestamp := Some(now)) else e;
      if |ch| < capacity {
        ch := ch + [|accepted|];
        accepted := accepted + [stamped];
      }
    }

    /** A non-blocking send on one subscriber's queue. */
    method Send(s: nat, e: nat)
      requires s < |subs|
      modifies this`subs
      ensures subs == old(subs)[s := Deliver(old(subs)[s], e)]
    {
      if |subs[s].queue| < SUBSCRIBER_QUEUE_SIZE {
        subs := subs[s := subs[s].(queue := subs[s].queue + [e])];
      } else {
        subs := subs[s := subs[s].(misses := subs[s].misses + [Miss(e, |subs[s].queue|)])];
      }
    }

    method OfferNext()
      requires Inv(State()) && dispatcher.Fanning? && dispatcher.next < |active|
      modifies this
      ensures State() == Next(old(State()), Offer) && Inv(State())
    {
      OfferKeeps(State());
      Send(active[dispatcher.next], dispatcher.event);
      dispatcher := dispatcher.(next := dispatcher.next + 1);
    }

    /** The dispatch goroutine takes the next event and the read lock. */
    method BeginFanOut()
      requires Inv(State()) && dispatcher.Idle? && ch != []
      modifies this
      ensures Inv(State())
      ensures State() == old(State()).(ch := old(ch)[1..], dispatcher := Fanning(old(ch)[0], 0))
    {
      StepKeepsInv(State(), Receive);
      StepKeepsInv(Next(State(), Receive), Lock);
      dispatcher, ch := Fanning(ch[0], 0), ch[1..];
    }

    /** The fan-out loop with nobody else moving: the event is offered once to every registered
        subscriber and to no other. */
    method FanOut()
      requires Inv(State()) && dispatcher.Fanning? && dispatcher.next == 0
      modifies this
      ensures Inv(State())
      ensures State() == old(State()).(subs := subs, dispatcher := Idle)
      ensures subs == Offered(old(subs), active, |active|, old(dispatcher.event))
    {
      OfferAll();
      StepKeepsInv(State(), Unlock);
      dispatcher := Idle;
    }

    method OfferAll()
      requires Inv(State()) && dispatcher.Fanning? && dispatcher.next == 0
      modifies this
      ensures Inv(State()) && State() == FanningAt(old(State()), |old(active)|)
    {
      ghost var start := State();
      FanningStart(start);
      var k := 0;
      while k < |active|
        invariant FannedOut(start, k, State())
      {
        OfferAt(start, k);
        k := k + 1;
      }
      FannedToAll(start, k, State());
    }

    /** The pass of the fan-out that reaches registered subscriber `k`. */
    method OfferAt(ghost start: BusState, k: nat)
      requires FannedOut(start, k, State()) && k < |start.active|
      modifies this
      ensures FannedOut(start, k + 1, State())
    {
      FanningStep(start, k);
      OfferNext();
    }

    /** A worker takes the next event from its queue and runs the handler. */
    method WorkOne(s: nat)
      requires Inv(State()) && s < |subs| && Waiting(subs[s]) && subs[s].queue != []
      modifies this
      ensures Inv(State()) && State() == Next(Next(old(State()), Take(s)), Finish(s))
    {
      StepKeepsInv(State(), Take(s));
      StepKeepsInv(Next(State(), Take(s)), Finish(s));
      var e := subs[s].queue[0];
      subs := subs[s := subs[s].(inHand := Some(e), queue := subs[s].queue[1..])];
      subs := subs[s := subs[s].(handled := subs[s].handled + [e], inHand := None)];
    }
  }
}
