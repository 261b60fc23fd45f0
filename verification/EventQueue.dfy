/**
  The notification listener of internal/store/notify.go: one producer (the read
  loop of a Postgres connection) and one consumer (the goroutine that runs the
  callbacks) share a bounded channel. A full channel drops events; a dropped,
  evicted or missed event must be made good by a resync.

  Every channel operation is one atomic action. `Apply` is the whole protocol;
  `Listener` is the producer's code, with the consumer let loose between any two
  channel operations, proved to take only steps of the protocol.
 */
module EventQueue {
  import opened Prelude

  /** What waits in the channel: an OnEvent call for one event, or an OnReconnect call. */
  datatype Item = Event(id: nat) | Resync

  /** The history of the listener. Events are numbered in arrival order. */
  datatype Entry =
    | Missed              // sent while no connection was listening, after the first one had been
    | Dropped(id: nat)    // found the channel full
    | Evicted(item: Item) // made room for a resync
    | Ran(item: Item)     // its callback was started

  predicate IsLoss(e: Entry) {
    !e.Ran?
  }

  /** Where the producer stands between two of its channel operations. */
  datatype Pc =
    | Offline   // no connection listens
    | Reading   // waiting for the next notification
    | Resyncing // in enqueueReconnect, before the first send
    | Evicting  // that send found the channel full
    | Sending   // before the final, blocking send

  datatype State = State(
    capacity: nat,
    resyncs: bool,        // OnReconnect is set
    queue: seq<Item>,
    pc: Pc,
    connectedOnce: bool,
    dropping: bool,
    arrived: nat,         // events read so far, and the number of the next one
    log: seq<Entry>)

  function Init(capacity: nat, resyncs: bool): State {
    State(capacity, resyncs, [], Offline, false, false, 0, [])
  }

  datatype Action = Connect | Disconnect | Notify | Deliver | TryResync | Evict | Send | Take

  predicate Full(s: State) {
    |s.queue| >= s.capacity
  }

  function Push(s: State, item: Item): State {
    s.(queue := s.queue + [item], pc := Reading)
  }

  function Note(s: State, e: Entry): State {
    s.(log := s.log + [e])
  }

  /** One atomic action; None when it cannot happen in `s`. */
  function Apply(s: State, a: Action): Option<State> {
    match a
    case Connect =>
      if s.pc != Offline then None
      else Some(s.(pc := if s.connectedOnce && s.resyncs then Resyncing else Reading, connectedOnce := true, dropping := false))
    case Disconnect =>
      if s.pc != Reading then None else Some(s.(pc := Offline))
    case Notify =>
      // A NOTIFY with nobody listening.
      if s.pc != Offline then None
      else Some(if s.connectedOnce then Note(s, Missed) else s)
    case Deliver =>
      if s.pc != Reading then None
      else
        var next := s.(arrived := s.arrived + 1);
        if !Full(s) then Some(Push(next, Event(s.arrived)).(dropping := false))
        else
          var dropped := Note(next, Dropped(s.arrived)).(dropping := true);
          Some(if !s.dropping && s.resyncs then dropped.(pc := Resyncing) else dropped)
    case TryResync =>
      if s.pc != Resyncing then None
      else Some(if Full(s) then s.(pc := Evicting) else Push(s, Resync))
    case Evict =>
      if s.pc != Evicting then None
      else if s.queue == [] then Some(s.(pc := Sending))
      else Some(Note(s, Evicted(s.queue[0])).(queue := s.queue[1..], pc := Sending))
    case Send =>
      // A blocking send: it waits while the channel is full.
      if s.pc != Sending || Full(s) then None else Some(Push(s, Resync))
    case Take =>
      if s.queue == [] then None
      else Some(Note(s, Ran(s.queue[0])).(queue := s.queue[1..]))
  }

  /** A run: any interleaving of the producer's, the consumer's and the database's actions. */
  function Run(s: State, actions: seq<Action>): Option<State>
    decreases |actions|
  {
    if actions == [] then Some(s)
    else
      match Apply(s, actions[0])
      case None => None
      case Some(next) => Run(next, actions[1..])
  }

  ghost predicate Reaches(s: State, t: State) {
    exists actions :: Run(s, actions) == Some(t)
  }

  lemma RunCons(s: State, actions: seq<Action>)
    requires actions != []
    ensures Run(s, actions) == match Apply(s, actions[0]) case None => None case Some(next) => Run(next, actions[1..])
  {
  }

  lemma RunNothing(s: State)
    ensures Run(s, []) == Some(s)
  {
  }

  lemma {:induction false} RunConcat(s: State, first: seq<Action>, second: seq<Action>)
    requires Run(s, first).Some?
    ensures Run(s, first + second) == Run(Run(s, first).value, second)
    decreases |first|
  {
    hide *;
    if first == [] {
      RunNothing(s);
      assert first + second == second;
    } else {
      assert (first + second)[0] == first[0] && (first + second)[1..] == first[1..] + second;
      RunCons(s, first);
      RunCons(s, first + second);
      RunConcat(Apply(s, first[0]).value, first[1..], second);
    }
  }

  lemma ReachesTrans(s: State, t: State, u: State)
    requires Reaches(s, t) && Reaches(t, u)
    ensures Reaches(s, u)
  {
    hide Run;
    var first :| Run(s, first) == Some(t);
    var second :| Run(t, second) == Some(u);
    RunConcat(s, first, second);
    assert Run(s, first + second) == Some(u);
  }

  lemma ReachesStep(s: State, a: Action)
    requires Apply(s, a).Some?
    ensures Reaches(s, Apply(s, a).value)
  {
    var t := Apply(s, a).value;
    assert Run(t, []) == Some(t);
    assert [a][1..] == [];
    assert Run(s, [a]) == Some(t);
  }

  lemma ReachesSelf(s: State)
    ensures Reaches(s, s)
  {
    assert Run(s, []) == Some(s);
  }

  // ---- No loss goes unnoticed ----

  /** A resync that will re-fetch what entry `i` of the log lost: still queued, or started after the loss. */
  ghost predicate Covered(s: State, i: nat)
    requires i < |s.log|
  {
    Resync in s.queue || exists j :: i < j < |s.log| && s.log[j] == Ran(Resync)
  }

  ghost predicate Owed(s: State) {
    s.pc == Resyncing || s.pc == Evicting || s.pc == Sending
  }

  /** Every loss is covered, or the producer is on its way to cover it: in enqueueReconnect, or before it reconnects. */
  ghost predicate LossesCovered(s: State) {
    forall i :: 0 <= i < |s.log| && IsLoss(s.log[i]) ==>
      Covered(s, i) || Owed(s) || (s.pc == Offline && s.log[i] == Missed)
  }

  ghost predicate Inv(s: State) {
    && |s.queue| <= s.capacity
    && (s.pc == Sending ==> !Full(s))
    && (Owed(s) ==> s.resyncs)
    && (!s.connectedOnce ==> s.pc == Offline && s.log == [] && s.queue == [])
    && (s.resyncs ==> LossesCovered(s))
    && (s.resyncs && s.pc == Reading && s.dropping && Full(s) ==> Resync in s.queue)
  }

  lemma CoverageKept(s: State, t: State)
    requires s.log <= t.log
    requires Resync in s.queue ==>
      Resync in t.queue || exists j :: |s.log| <= j < |t.log| && t.log[j] == Ran(Resync)
    ensures forall i :: 0 <= i < |s.log| && Covered(s, i) ==> Covered(t, i)
  {
    forall i | 0 <= i < |s.log| && Covered(s, i)
      ensures Covered(t, i)
    {
      if Resync !in s.queue {
        var j :| i < j < |s.log| && s.log[j] == Ran(Resync);
        assert t.log[j] == Ran(Resync);
      }
    }
  }

  lemma TakeKeepsInv(s: State)
    requires Inv(s) && s.queue != []
    ensures Inv(Apply(s, Take).value)
  {
    var t := Apply(s, Take).value;
    if Resync in s.queue {
      if s.queue[0] == Resync {
        assert t.log[|s.log|] == Ran(Resync);
      } else {
        assert Resync in t.queue;
      }
    }
    CoverageKept(s, t);
  }

  lemma StepKeepsInv(s: State, a: Action)
    requires s.capacity >= 1 && Inv(s) && Apply(s, a).Some?
    ensures Inv(Apply(s, a).value)
  {
    var t := Apply(s, a).value;
    match a
    case Connect => CoverageKept(s, t);
    case Disconnect => CoverageKept(s, t);
    case Notify => CoverageKept(s, t);
    case Deliver =>
      assert Resync in s.queue ==> Resync in t.queue;
      CoverageKept(s, t);
    case TryResync =>
    case Evict =>
    case Send => assert Resync in t.queue;
    case Take => TakeKeepsInv(s);
  }

  lemma RunKeepsInv(s: State, actions: seq<Action>)
    requires s.capacity >= 1 && Inv(s) && Run(s, actions).Some?
    ensures Inv(Run(s, actions).value)
    decreases |actions|
  {
    if actions != [] {
      StepKeepsInv(s, actions[0]);
      RunKeepsInv(Apply(s, actions[0]).value, actions[1..]);
    }
  }

  /**
    In every interleaving, for any capacity of at least one and a resync callback: whenever the
    producer is back at reading notifications, every event dropped, evicted, or missed since the
    first connection is covered by a resync that is still queued or was started after the loss.
   */
  lemma EveryLossIsCovered(capacity: nat, actions: seq<Action>, i: nat)
    requires capacity >= 1
    requires Run(Init(capacity, true), actions).Some?
    requires
      var s := Run(Init(capacity, true), actions).value;
      i < |s.log| && IsLoss(s.log[i])
    ensures
      var s := Run(Init(capacity, true), actions).value;
      Covered(s, i) || Owed(s) || (s.pc == Offline && s.log[i] == Missed)
  {
    RunKeepsInv(Init(capacity, true), actions);
    RunKeepsSetup(Init(capacity, true), actions);
  }

  lemma {:induction false} RunKeepsSetup(s: State, actions: seq<Action>)
    requires Run(s, actions).Some?
    ensures
      var t := Run(s, actions).value;
      t.capacity == s.capacity && t.resyncs == s.resyncs && s.log <= t.log && s.arrived <= t.arrived
    decreases |actions|
  {
    if actions != [] {
      StepKeepsSetup(s, actions[0]);
      hide Apply;
      RunKeepsSetup(Apply(s, actions[0]).value, actions[1..]);
    }
  }

  lemma StepKeepsSetup(s: State, a: Action)
    requires Apply(s, a).Some?
    ensures
      var t := Apply(s, a).value;
      t.capacity == s.capacity && t.resyncs == s.resyncs && s.log <= t.log && s.arrived <= t.arrived
  {
  }

  lemma SomeRoomToSend(capacity: nat, resyncs: bool, actions: seq<Action>)
    requires capacity >= 1 && Run(Init(capacity, resyncs), actions).Some?
    ensures
      var s := Run(Init(capacity, resyncs), actions).value;
      s.pc == Sending ==> Apply(s, Send).Some?
  {
    RunKeepsInv(Init(capacity, resyncs), actions);
    hide Run;
  }

  /** The final send of enqueueReconnect never blocks, in any interleaving, exactly when the channel has a buffer. */
  lemma FinalSendNeverBlocks(capacity: nat)
    ensures capacity >= 1 <==>
      forall actions, resyncs ::
        var r := Run(Init(capacity, resyncs), actions);
        r.Some? && r.value.pc == Sending ==> Apply(r.value, Send).Some?
  {
    hide Run, Apply, Init;
    if capacity >= 1 {
      forall actions, resyncs | Run(Init(capacity, resyncs), actions).Some?
        ensures
          var s := Run(Init(capacity, resyncs), actions).value;
          s.pc == Sending ==> Apply(s, Send).Some?
      {
        SomeRoomToSend(capacity, resyncs, actions);
      }
    } else {
      var s := Blocked();
      NoRoomNoSend(s);
      assert Run(Init(capacity, true), [Connect, Deliver, TryResync, Evict]) == Some(s);
    }
  }

  lemma NoRoomNoSend(s: State)
    requires s.pc == Sending && Full(s)
    ensures Apply(s, Send) == None
  {
  }

  /** An unbuffered channel whose consumer is busy: the first dropped event already blocks the listener. */
  lemma Blocked() returns (s: State)
    ensures Run(Init(0, true), [Connect, Deliver, TryResync, Evict]) == Some(s)
    ensures s.pc == Sending && Full(s)
  {
    var s0 := Init(0, true);
    var s1 := Apply(s0, Connect).value;
    var s2 := Apply(s1, Deliver).value;
    var s3 := Apply(s2, TryResync).value;
    s := Apply(s3, Evict).value;
    var actions := [Connect, Deliver, TryResync, Evict];
    assert actions[1..] == [Deliver, TryResync, Evict];
    assert actions[1..][1..] == [TryResync, Evict];
    assert actions[1..][1..][1..] == [Evict];
    assert actions[1..][1..][1..][1..] == [];
    assert Run(s, []) == Some(s);
    assert Run(s3, [Evict]) == Some(s);
    assert Run(s2, [TryResync, Evict]) == Some(s);
    assert Run(s1, [Deliver, TryResync, Evict]) == Some(s);
  }

  // ---- Order and conservation ----

  function EventId(item: Item): seq<nat> {
    if item.Event? then [item.id] else []
  }

  function RanId(e: Entry): seq<nat> {
    if e.Ran? then EventId(e.item) else []
  }

  function LostId(e: Entry): seq<nat> {
    match e
    case Dropped(id) => [id]
    case Evicted(item) => EventId(item)
    case _ => []
  }

  function EventIds(items: seq<Item>): seq<nat> {
    if items == [] then [] else EventId(items[0]) + EventIds(items[1..])
  }

  function RanIds(log: seq<Entry>): seq<nat> {
    if log == [] then [] else RanIds(log[..|log| - 1]) + RanId(log[|log| - 1])
  }

  function LostIds(log: seq<Entry>): seq<nat> {
    if log == [] then [] else LostIds(log[..|log| - 1]) + LostId(log[|log| - 1])
  }

  function FirstIds(n: nat): seq<nat> {
    seq(n, i => i)
  }

  ghost predicate Increasing(ids: seq<nat>) {
    forall i, j :: 0 <= i < j < |ids| ==> ids[i] < ids[j]
  }

  /** The events delivered, then the events waiting: arrival order, whatever was lost between them. */
  function Pipeline(s: State): seq<nat> {
    RanIds(s.log) + EventIds(s.queue)
  }

  /** `kept` is in arrival order, and with `lost` it makes up the first `n` events, each once. */
  ghost predicate Balanced(kept: seq<nat>, lost: seq<nat>, n: nat) {
    && Increasing(kept)
    && (forall id :: id in kept ==> id < n)
    && multiset(kept) + multiset(lost) == multiset(FirstIds(n))
  }

  ghost predicate Accounted(s: State) {
    Balanced(Pipeline(s), LostIds(s.log), s.arrived)
  }

  lemma {:induction false} EventIdsAppend(items: seq<Item>, item: Item)
    ensures EventIds(items + [item]) == EventIds(items) + EventId(item)
  {
    if items == [] {
      assert items + [item] == [item] && [item][1..] == [];
    } else {
      hide EventId;
      EventIdsAppend(items[1..], item);
      assert (items + [item])[1..] == items[1..] + [item] && (items + [item])[0] == items[0];
      Assoc(EventId(items[0]), EventIds(items[1..]), EventId(item));
    }
  }

  lemma LogAppend(log: seq<Entry>, e: Entry)
    ensures RanIds(log + [e]) == RanIds(log) + RanId(e)
    ensures LostIds(log + [e]) == LostIds(log) + LostId(e)
  {
    assert (log + [e])[..|log|] == log;
  }

  lemma FirstIdsSucc(n: nat)
    ensures FirstIds(n + 1) == FirstIds(n) + [n]
  {
  }

  /** What the accounts see of one action: an arrival, a loss, a delivery, or nothing. */
  lemma Effect(s: State, a: Action)
    requires Apply(s, a).Some?
    ensures
      var t := Apply(s, a).value;
      match a
      case Deliver =>
        && t.arrived == s.arrived + 1
        && t.queue == (if Full(s) then s.queue else s.queue + [Event(s.arrived)])
        && t.log == (if Full(s) then s.log + [Dropped(s.arrived)] else s.log)
      case Evict =>
        && t.arrived == s.arrived
        && if s.queue == [] then t.queue == [] && t.log == s.log
           else t.queue == s.queue[1..] && t.log == s.log + [Evicted(s.queue[0])]
      case Take =>
        s.queue != [] && t.arrived == s.arrived && t.queue == s.queue[1..] && t.log == s.log + [Ran(s.queue[0])]
      case _ =>
        && t.arrived == s.arrived
        && (t.queue == s.queue || t.queue == s.queue + [Resync])
        && (t.log == s.log || t.log == s.log + [Missed])
  {
  }

  lemma StepKeepsAccounts(s: State, a: Action)
    requires Accounted(s) && Apply(s, a).Some?
    ensures Accounted(Apply(s, a).value)
  {
    var t := Apply(s, a).value;
    Effect(s, a);
    hide Balanced, Apply;
    match a
    case Deliver =>
      if Full(s) {
        LossKeepsAccounts(s, t);
      } else {
        ArrivalKeepsAccounts(s, t);
      }
    case Evict =>
      if s.queue != [] {
        EvictionKeepsAccounts(s, t);
      }
    case Take => DeliveryKeepsAccounts(s, t);
    case _ => ResyncKeepsAccounts(s, t);
  }

  lemma DeliveryKeepsAccounts(s: State, t: State)
    requires Accounted(s) && s.queue != []
    requires t.arrived == s.arrived && t.queue == s.queue[1..] && t.log == s.log + [Ran(s.queue[0])]
    ensures Accounted(t)
  {
    hide Balanced;
    LogAppend(s.log, Ran(s.queue[0]));
    assert LostIds(t.log) == LostIds(s.log);
    assert Pipeline(t) == Pipeline(s);
  }

  lemma ResyncKeepsAccounts(s: State, t: State)
    requires Accounted(s) && t.arrived == s.arrived
    requires t.queue == s.queue || t.queue == s.queue + [Resync]
    requires t.log == s.log || t.log == s.log + [Missed]
    ensures Accounted(t)
  {
    hide Balanced;
    LogAppend(s.log, Missed);
    EventIdsAppend(s.queue, Resync);
    assert RanIds(t.log) == RanIds(s.log) && LostIds(t.log) == LostIds(s.log);
    assert EventIds(t.queue) == EventIds(s.queue);
  }

  lemma LossKeepsAccounts(s: State, t: State)
    requires Accounted(s)
    requires t.arrived == s.arrived + 1 && t.queue == s.queue && t.log == s.log + [Dropped(s.arrived)]
    ensures Accounted(t)
  {
    hide Balanced;
    NewestKeepsBalance(Pipeline(s), LostIds(s.log), s.arrived);
    LogAppend(s.log, Dropped(s.arrived));
    assert RanIds(t.log) == RanIds(s.log);
  }

  lemma ArrivalKeepsAccounts(s: State, t: State)
    requires Accounted(s)
    requires t.arrived == s.arrived + 1 && t.queue == s.queue + [Event(s.arrived)] && t.log == s.log
    ensures Accounted(t)
  {
    hide *;
    AccountsOf(s);
    NewestKeepsBalance(Pipeline(s), LostIds(s.log), s.arrived);
    EventIdsAppend(s.queue, Event(s.arrived));
    EventIdOfEvent(s.arrived);
    PipelineOf(s);
    PipelineOf(t);
    Assoc(RanIds(s.log), EventIds(s.queue), [s.arrived]);
    AccountsOf(t);
  }

  lemma AccountsOf(s: State)
    ensures Accounted(s) <==> Balanced(Pipeline(s), LostIds(s.log), s.arrived)
  {
  }

  lemma PipelineOf(s: State)
    ensures Pipeline(s) == RanIds(s.log) + EventIds(s.queue)
  {
  }

  lemma EventIdOfEvent(id: nat)
    ensures EventId(Event(id)) == [id]
  {
  }

  lemma EvictionKeepsAccounts(s: State, t: State)
    requires Accounted(s) && s.queue != []
    requires t.arrived == s.arrived && t.queue == s.queue[1..] && t.log == s.log + [Evicted(s.queue[0])]
    ensures Accounted(t)
  {
    hide *;
    var item := s.queue[0];
    AccountsOf(s);
    AccountsOf(t);
    PipelineOf(s);
    PipelineOf(t);
    LogAppend(s.log, Evicted(item));
    EvictedIds(item);
    EventIdsCons(s.queue);
    Assoc(RanIds(s.log), EventId(item), EventIds(t.queue));
    assert RanIds(s.log) + [] == RanIds(s.log);
    if item.Event? {
      EventIdOfEvent(item.id);
      LosingOldestKeepsBalance(RanIds(s.log), item.id, EventIds(t.queue), LostIds(s.log), s.arrived);
    } else {
      assert LostIds(s.log) + [] == LostIds(s.log) && [] + EventIds(t.queue) == EventIds(t.queue);
    }
  }

  lemma EventIdsCons(items: seq<Item>)
    requires items != []
    ensures EventIds(items) == EventId(items[0]) + EventIds(items[1..])
  {
  }

  lemma EvictedIds(item: Item)
    ensures RanId(Evicted(item)) == [] && LostId(Evicted(item)) == EventId(item)
    ensures item.Resync? ==> EventId(item) == []
  {
  }

  lemma LosingOldestKeepsBalance(ran: seq<nat>, id: nat, waiting: seq<nat>, lost: seq<nat>, n: nat)
    requires Balanced(ran + [id] + waiting, lost, n)
    ensures Balanced(ran + waiting, lost + [id], n)
  {
    var before, after := ran + [id] + waiting, ran + waiting;
    forall i, j | 0 <= i < j < |after|
      ensures after[i] < after[j]
    {
      assert after[i] == before[if i < |ran| then i else i + 1];
      assert after[j] == before[if j < |ran| then j else j + 1];
    }
    forall x | x in after
      ensures x < n
    {
      assert x in before;
    }
  }

  lemma NewestKeepsBalance(kept: seq<nat>, lost: seq<nat>, n: nat)
    requires Balanced(kept, lost, n)
    ensures Balanced(kept + [n], lost, n + 1)
    ensures Balanced(kept, lost + [n], n + 1)
  {
    FirstIdsSucc(n);
    forall i | 0 <= i < |kept|
      ensures kept[i] < n
    {
      assert kept[i] in kept;
    }
  }

  lemma {:induction false} RunKeepsAccounts(s: State, actions: seq<Action>)
    requires Accounted(s) && Run(s, actions).Some?
    ensures Accounted(Run(s, actions).value)
    decreases |actions|
  {
    if actions != [] {
      StepKeepsAccounts(s, actions[0]);
      RunKeepsAccounts(Apply(s, actions[0]).value, actions[1..]);
    }
  }

  /**
    In every interleaving and for any capacity: callbacks run in arrival order, nothing that waits
    overtakes them, and every event that arrived was delivered, waits, or was lost, exactly one of
    the three and exactly once.
   */
  lemma DeliveredInOrderAndConserved(capacity: nat, resyncs: bool, actions: seq<Action>)
    requires Run(Init(capacity, resyncs), actions).Some?
    ensures
      var s := Run(Init(capacity, resyncs), actions).value;
      && Increasing(RanIds(s.log) + EventIds(s.queue))
      && multiset(RanIds(s.log) + EventIds(s.queue)) + multiset(LostIds(s.log)) == multiset(FirstIds(s.arrived))
  {
    RunKeepsAccounts(Init(capacity, resyncs), actions);
  }

  // ---- The producer's code ----

  /** The read loop's state. The consumer may run callbacks before any channel operation: `Interleave`. */
  class Listener {
    const capacity: nat
    const hasReconnect: bool
    var queue: seq<Item>
    var connectedOnce: bool
    var dropping: bool
    var arrived: nat
    ghost var pc: Pc
    ghost var log: seq<Entry>

    ghost function Abs(): State
      reads this
    {
      State(capacity, hasReconnect, queue, pc, connectedOnce, dropping, arrived, log)
    }

    ghost predicate Valid()
      reads this
    {
      capacity >= 1 && Inv(Abs())
    }

    constructor (capacity: nat, hasReconnect: bool)
      requires capacity >= 1
      ensures Valid() && Abs() == Init(capacity, hasReconnect)
      ensures queue == [] && !connectedOnce && !dropping
    {
      this.capacity, this.hasReconnect := capacity, hasReconnect;
      queue, connectedOnce, dropping, arrived := [], false, false, 0;
      pc, log := Offline, [];
    }

    /** The consumer goroutine takes and runs any number of the queued callbacks, continuing the run from `start`. */
    method Interleave(ghost start: State)
      requires Valid() && Reaches(start, Abs())
      modifies `queue, `log
      ensures Valid() && Reaches(start, Abs())
      ensures old(log) <= log && |queue| <= |old(queue)|
      ensures forall i :: |old(log)| <= i < |log| ==> log[i].Ran?
    {
      var k: nat :| k <= |queue|;
      while k > 0
        invariant k <= |queue| <= |old(queue)|
        invariant Valid() && Reaches(start, Abs()) && old(log) <= log
        invariant forall i :: |old(log)| <= i < |log| ==> log[i].Ran?
      {
        ghost var before := Abs();
        log := log + [Ran(queue[0])];
        queue := queue[1..];
        k := k - 1;
        Took(start, before, Take, Abs());
      }
    }

    /** Queues a resync, evicting the oldest item when the channel is full. The last send finds room: it never waits. */
    method EnqueueReconnect(ghost start: State)
      requires Valid() && pc == Resyncing && Reaches(start, Abs())
      modifies `queue, `log, `pc
      ensures Valid() && Reaches(start, Abs()) && pc == Reading
      ensures queue != [] && queue[|queue| - 1] == Resync
      ensures old(log) <= log
      ensures forall i :: |old(log)| <= i < |log| ==> !log[i].Dropped?
    {
      hide Reaches;
      Interleave(start);
      ghost var s0 := Abs();
      if |queue| < capacity {
        queue := queue + [Resync];
        pc := Reading;
        Took(start, s0, TryResync, Abs());
        return;
      }
      pc := Evicting;
      Took(start, s0, TryResync, Abs());
      EvictOldest(start);
      Interleave(start);
      ghost var s2 := Abs();
      assert |queue| < capacity;
      queue := queue + [Resync];
      pc := Reading;
      Took(start, s2, Send, Abs());
    }

    /** The second select of enqueueReconnect: receive one item, or none if the consumer emptied the channel. */
    method EvictOldest(ghost start: State)
      requires Valid() && pc == Evicting && Reaches(start, Abs())
      modifies `queue, `log, `pc
      ensures Valid() && Reaches(start, Abs()) && pc == Sending
      ensures old(log) <= log
      ensures forall i :: |old(log)| <= i < |log| ==> !log[i].Dropped?
    {
      Interleave(start);
      ghost var s1 := Abs();
      if queue != [] {
        log := log + [Evicted(queue[0])];
        queue := queue[1..];
      }
      pc := Sending;
      Took(start, s1, Evict, Abs());
    }

    /**
      Queues the next event, or drops it when the channel is full; the first drop of a run of drops
      also queues a resync, behind everything else.
     */
    method Deliver() returns (dropped: bool)
      requires Valid() && pc == Reading
      modifies `queue, `log, `pc, `dropping, `arrived
      ensures Valid() && Reaches(old(Abs()), Abs()) && pc == Reading
      ensures arrived == old(arrived) + 1 && dropping == dropped
      ensures old(log) <= log
      ensures dropped <==> Dropped(old(arrived)) in log[|old(log)|..]
      ensures !dropped ==> queue != [] && queue[|queue| - 1] == Event(old(arrived))
      ensures dropped && !old(dropping) && hasReconnect ==> queue != [] && queue[|queue| - 1] == Resync
      ensures dropped && old(dropping) ==> |queue| == capacity
    {
      hide Reaches, Inv;
      ghost var start := Abs();
      ReachesSelf(start);
      Interleave(start);
      ghost var s0 := Abs();
      arrived := arrived + 1;
      if |queue| < capacity {
        queue := queue + [Event(arrived - 1)];
        dropping := false;
        Took(start, s0, Action.Deliver, Abs());
        return false;
      }
      log := log + [Dropped(arrived - 1)];
      ghost var at := |log| - 1;
      assert log[at] == Dropped(old(arrived));
      var first := !dropping && hasReconnect;
      dropping := true;
      if first {
        pc := Resyncing;
        Took(start, s0, Action.Deliver, Abs());
        EnqueueReconnect(start);
      } else {
        Took(start, s0, Action.Deliver, Abs());
      }
      assert log[|old(log)|..][at - |old(log)|] == Dropped(old(arrived));
      return true;
    }

    /** A connection reaches the notification loop. One that follows another first queues a resync. */
    method Connected()
      requires Valid() && pc == Offline
      modifies `queue, `log, `pc, `dropping, `connectedOnce
      ensures Valid() && Reaches(old(Abs()), Abs()) && pc == Reading
      ensures connectedOnce && !dropping
      ensures old(connectedOnce) && hasReconnect ==> queue != [] && queue[|queue| - 1] == Resync
      ensures !old(connectedOnce) || !hasReconnect ==> queue == old(queue) && log == old(log)
    {
      ghost var s0 := Abs();
      ReachesSelf(s0);
      var isReconnect := connectedOnce;
      connectedOnce, dropping := true, false;
      if isReconnect && hasReconnect {
        pc := Resyncing;
        Took(s0, s0, Connect, Abs());
        EnqueueReconnect(s0);
      } else {
        pc := Reading;
        Took(s0, s0, Connect, Abs());
      }
    }
  }

  /** The code's last statements were one action of the protocol. */
  lemma Took(start: State, before: State, a: Action, after: State)
    requires before.capacity >= 1 && Inv(before)
    requires Reaches(start, before) && Apply(before, a) == Some(after)
    ensures Reaches(start, after) && Inv(after)
  {
    ReachesStep(before, a);
    ReachesTrans(start, before, after);
    StepKeepsInv(before, a);
  }
}
