/**
  Leader election (internal/store/leader.go): replicas compete for a session lock of the database; the holder
  runs `lead` and the duties it starts (cmd/kritika/main.go), pings its session, and steps down when a ping
  fails. The server may drop a session at any time without telling. Time is a number that waits for nobody
  longer than a ping's bound: a replica that must act by an instant acts by then.
 */
module Leader {
  import opened Prelude

  const LOCK_TIMEOUT := 5

  datatype Phase =
    | Waiting                // without the lock
    | Leading(nextPing: int) // in the select loop; the ticker fires by then
    | Pinging(deadline: int) // in pingLock
    | Cancelled              // lead's context is cancelled; waiting for it to return
    | Unlocking              // lead has returned

  /** A replica: `running` while lead has not returned, `duties` those started in it and not ended. */
  datatype Replica = Replica(phase: Phase, session: nat, running: bool, duties: nat)

  /** `dropped` says when the server dropped a session; sessions are numbered as their locks were granted. */
  datatype State = State(
    interval: nat, replicas: seq<Replica>, holder: Option<nat>, granted: nat, dropped: map<nat, int>, now: int)

  datatype Action =
    | Tick(seconds: nat)
    | TryLock(replica: nat)
    | LoseGrant(replica: nat)   // granted, but the answer never came: the connection is closed
    | StartDuty(replica: nat)
    | EndDuty(replica: nat)
    | LeadReturns(replica: nat)
    | StartPing(replica: nat)
    | PingOk(replica: nat)
    | PingFails(replica: nat)
    | Cancel(replica: nat)      // the replica's own context ends
    | Observe(replica: nat)     // receives from done
    | Unlock(replica: nat)
    | UnlockFails(replica: nat)
    | Drop(session: nat)

  function Init(replicas: nat, interval: nat, now: int): State {
    State(interval, seq(replicas, _ => Replica(Waiting, 0, false, 0)), None, 0, map[], now)
  }

  /** No replica lets time pass what it must act by. */
  predicate MayPass(r: Replica, to: int) {
    match r.phase
    case Leading(nextPing) => to <= nextPing
    case Pinging(deadline) => to <= deadline
    case _ => true
  }

  function With(s: State, i: nat, r: Replica): State
    requires i < |s.replicas|
  {
    s.(replicas := s.replicas[i := r])
  }

  function To(s: State, i: nat, phase: Phase): State
    requires i < |s.replicas|
  {
    With(s, i, s.replicas[i].(phase := phase))
  }

  /** One action; None when it cannot happen in `s`. */
  function Apply(s: State, a: Action): Option<State> {
    if a.Tick? then
      var to := s.now + a.seconds;
      if forall i :: 0 <= i < |s.replicas| ==> MayPass(s.replicas[i], to) then Some(s.(now := to)) else None
    else if a.Drop? then
      if a.session >= s.granted || a.session in s.dropped then None
      else Some(s.(dropped := s.dropped[a.session := s.now], holder := if s.holder == Some(a.session) then None else s.holder))
    else if a.replica >= |s.replicas| then None
    else Act(s, a, a.replica, s.replicas[a.replica])
  }

  function Act(s: State, a: Action, i: nat, r: Replica): Option<State>
    requires i < |s.replicas| && r == s.replicas[i] && !a.Tick? && !a.Drop?
  {
    match a
    case TryLock(_) =>
      if !r.phase.Waiting? then None
      else if s.holder.Some? then Some(s)
      else Some(With(s, i, Replica(Leading(s.now + s.interval), s.granted, true, 0)).(holder := Some(s.granted), granted := s.granted + 1))
    case LoseGrant(_) =>
      if !r.phase.Waiting? || s.holder.Some? then None
      else Some(s.(holder := Some(s.granted), granted := s.granted + 1))
    case StartDuty(_) => if r.running then Some(With(s, i, r.(duties := r.duties + 1))) else None
    case EndDuty(_) => if r.duties > 0 then Some(With(s, i, r.(duties := r.duties - 1))) else None
    case LeadReturns(_) => if r.running && r.duties == 0 then Some(With(s, i, r.(running := false))) else None
    case StartPing(_) => if r.phase.Leading? then Some(To(s, i, Pinging(s.now + LOCK_TIMEOUT))) else None
    case PingOk(_) =>
      if r.phase.Pinging? && r.session !in s.dropped then Some(To(s, i, Leading(s.now + s.interval))) else None
    case PingFails(_) => if r.phase.Pinging? then Some(To(s, i, Cancelled)) else None
    case Cancel(_) => if r.phase.Leading? then Some(To(s, i, Cancelled)) else None
    case Observe(_) =>
      if (r.phase.Leading? || r.phase.Cancelled?) && !r.running then Some(To(s, i, Unlocking)) else None
    case Unlock(_) =>
      if !r.phase.Unlocking? then None
      else Some(To(s, i, Waiting).(holder := if s.holder == Some(r.session) then None else s.holder))
    case UnlockFails(_) => if r.phase.Unlocking? then Some(To(s, i, Waiting)) else None
  }

  function Run(s: State, actions: seq<Action>): Option<State>
    decreases |actions|
  {
    if actions == [] then Some(s)
    else
      match Run(s, actions[..|actions| - 1])
      case None => None
      case Some(before) => Apply(before, actions[|actions| - 1])
  }

  // ---- What holds in every run ----

  /** A replica that is waiting or unlocking runs nothing, and duties run only inside lead. */
  predicate Quiet(r: Replica) {
    && (r.phase.Waiting? || r.phase.Unlocking? ==> !r.running)
    && (!r.running ==> r.duties == 0)
  }

  predicate Active(r: Replica) {
    !r.phase.Waiting?
  }

  /** An active replica's lock was granted, and it still holds it unless the server dropped its session. */
  predicate Owns(s: State, r: Replica) {
    Active(r) ==> r.session < s.granted && (r.session in s.dropped || s.holder == Some(r.session))
  }

  /** When it must have noticed: a ping starts within the interval and ends within its bound. */
  predicate OnTime(s: State, r: Replica) {
    match r.phase
    case Leading(nextPing) =>
      && s.now <= nextPing <= s.now + s.interval
      && (r.session in s.dropped ==> nextPing <= s.dropped[r.session] + s.interval)
    case Pinging(deadline) =>
      && s.now <= deadline <= s.now + LOCK_TIMEOUT
      && (r.session in s.dropped ==> deadline <= s.dropped[r.session] + s.interval + LOCK_TIMEOUT)
    case _ => true
  }

  predicate Ok(s: State, r: Replica) {
    Quiet(r) && Owns(s, r) && OnTime(s, r)
  }

  /** Of two active replicas, the one granted first was dropped. */
  predicate Ordered(s: State, a: Replica, b: Replica) {
    Active(a) && Active(b) ==> a.session != b.session && (a.session < b.session ==> a.session in s.dropped)
  }

  ghost predicate Server(s: State) {
    && (s.holder.Some? ==> s.holder.value < s.granted && s.holder.value !in s.dropped)
    && (forall x :: x in s.dropped ==> x < s.granted && s.dropped[x] <= s.now)
  }

  ghost predicate Inv(s: State) {
    && Server(s)
    && (forall i :: 0 <= i < |s.replicas| ==> Ok(s, s.replicas[i]))
    && (forall i, j :: 0 <= i < |s.replicas| && 0 <= j < |s.replicas| && i != j ==> Ordered(s, s.replicas[i], s.replicas[j]))
  }

  lemma InitInv(replicas: nat, interval: nat, now: int)
    ensures Inv(Init(replicas, interval, now))
  {
  }

  /** The acting replica moved and is still well; the server, and what it says of the others, stayed. */
  lemma MovedInv(s: State, i: nat, r: Replica)
    requires Inv(s) && i < |s.replicas| && Ok(s, r)
    requires r.session == s.replicas[i].session && (Active(r) ==> Active(s.replicas[i]))
    ensures Inv(With(s, i, r))
  {
    hide Ok;
    var t := With(s, i, r);
    SameServer(s, t);
    forall j | 0 <= j < |t.replicas| ensures Ok(t, t.replicas[j]) {
      if j == i {
        SameOk(s, t, r);
      } else {
        SameOk(s, t, s.replicas[j]);
      }
    }
    forall j, k | 0 <= j < |t.replicas| && 0 <= k < |t.replicas| && j != k ensures Ordered(t, t.replicas[j], t.replicas[k]) {
      assert Ordered(s, s.replicas[j], s.replicas[k]);
    }
  }

  lemma SameServer(s: State, t: State)
    requires Server(s) && s.holder == t.holder && s.granted == t.granted && s.dropped == t.dropped && s.now == t.now
    ensures Server(t)
  {
  }

  lemma SameOk(s: State, t: State, r: Replica)
    requires Ok(s, r) && s.holder == t.holder && s.granted == t.granted && s.dropped == t.dropped && s.now == t.now
    requires s.interval == t.interval
    ensures Ok(t, r)
  {
  }

  lemma OkAt(s: State, i: nat)
    requires Inv(s) && i < |s.replicas|
    ensures Ok(s, s.replicas[i])
  {
  }

  lemma OrderedAt(s: State, i: nat, j: nat)
    requires Inv(s) && i < |s.replicas| && j < |s.replicas| && i != j
    ensures Ordered(s, s.replicas[i], s.replicas[j])
  {
  }

  lemma ServerOf(s: State)
    requires Inv(s)
    ensures Server(s)
  {
  }

  ghost predicate AllOk(s: State) {
    forall i :: 0 <= i < |s.replicas| ==> Ok(s, s.replicas[i])
  }

  ghost predicate AllOrdered(s: State) {
    forall i, j :: 0 <= i < |s.replicas| && 0 <= j < |s.replicas| && i != j ==> Ordered(s, s.replicas[i], s.replicas[j])
  }

  lemma InvOf(s: State)
    requires Server(s) && AllOk(s) && AllOrdered(s)
    ensures Inv(s)
  {
  }

  lemma TickInv(s: State, seconds: nat)
    requires Inv(s) && Apply(s, Tick(seconds)).Some?
    ensures Inv(Apply(s, Tick(seconds)).value)
  {
    hide Inv;
    var t := Apply(s, Tick(seconds)).value;
    ServerOf(s);
    forall i | 0 <= i < |t.replicas| ensures Ok(t, t.replicas[i]) {
      OkAt(s, i);
      assert MayPass(s.replicas[i], t.now);
    }
    forall i, j | 0 <= i < |t.replicas| && 0 <= j < |t.replicas| && i != j ensures Ordered(t, t.replicas[i], t.replicas[j]) {
      OrderedAt(s, i, j);
    }
    InvOf(t);
  }

  lemma DropInv(s: State, session: nat)
    requires Inv(s) && Apply(s, Drop(session)).Some?
    ensures Inv(Apply(s, Drop(session)).value)
  {
    hide Inv;
    var t := Apply(s, Drop(session)).value;
    ServerOf(s);
    forall i | 0 <= i < |t.replicas| ensures Ok(t, t.replicas[i]) {
      OkAt(s, i);
    }
    forall i, j | 0 <= i < |t.replicas| && 0 <= j < |t.replicas| && i != j ensures Ordered(t, t.replicas[i], t.replicas[j]) {
      OrderedAt(s, i, j);
    }
    InvOf(t);
  }

  /** A grant finds nobody holding: whoever is still active was dropped. */
  lemma GrantInv(s: State, i: nat, r: Replica)
    requires Inv(s) && i < |s.replicas| && s.holder.None? && s.replicas[i].phase.Waiting?
    requires r == s.replicas[i] || r == Replica(Leading(s.now + s.interval), s.granted, true, 0)
    ensures Inv(With(s, i, r).(holder := Some(s.granted), granted := s.granted + 1))
  {
    hide Inv;
    var t := With(s, i, r).(holder := Some(s.granted), granted := s.granted + 1);
    ServerOf(s);
    forall j | 0 <= j < |t.replicas| ensures Ok(t, t.replicas[j]) {
      OkAt(s, j);
    }
    forall j, k | 0 <= j < |t.replicas| && 0 <= k < |t.replicas| && j != k ensures Ordered(t, t.replicas[j], t.replicas[k]) {
      OkAt(s, j);
      OkAt(s, k);
      OrderedAt(s, j, k);
    }
    InvOf(t);
  }

  lemma UnlockInv(s: State, i: nat)
    requires Inv(s) && i < |s.replicas| && s.replicas[i].phase.Unlocking?
    ensures Inv(To(s, i, Waiting).(holder := if s.holder == Some(s.replicas[i].session) then None else s.holder))
  {
    hide Inv;
    var t := To(s, i, Waiting).(holder := if s.holder == Some(s.replicas[i].session) then None else s.holder);
    ServerOf(s);
    forall j | 0 <= j < |t.replicas| ensures Ok(t, t.replicas[j]) {
      OkAt(s, j);
      if j != i {
        OrderedAt(s, i, j);
      }
    }
    forall j, k | 0 <= j < |t.replicas| && 0 <= k < |t.replicas| && j != k ensures Ordered(t, t.replicas[j], t.replicas[k]) {
      OrderedAt(s, j, k);
    }
    InvOf(t);
  }

  lemma StepInv(s: State, a: Action)
    requires Inv(s) && Apply(s, a).Some?
    ensures Inv(Apply(s, a).value)
  {
    hide Inv;
    if a.Tick? {
      TickInv(s, a.seconds);
    } else if a.Drop? {
      DropInv(s, a.session);
    } else {
      var i := a.replica;
      var r := s.replicas[i];
      OkAt(s, i);
      ServerOf(s);
      if a.TryLock? && s.holder.None? {
        GrantInv(s, i, Replica(Leading(s.now + s.interval), s.granted, true, 0));
      } else if a.LoseGrant? {
        GrantInv(s, i, r);
        assert s.replicas[i := r] == s.replicas;
      } else if a.Unlock? {
        UnlockInv(s, i);
      } else if !a.TryLock? {
        MovedInv(s, i, Apply(s, a).value.replicas[i]);
      }
    }
  }

  lemma {:induction false} RunKeepsInv(s: State, actions: seq<Action>)
    requires Inv(s) && Run(s, actions).Some?
    ensures Inv(Run(s, actions).value)
    decreases |actions|
  {
    hide Inv, Apply;
    if actions != [] {
      RunKeepsInv(s, actions[..|actions| - 1]);
      StepInv(Run(s, actions[..|actions| - 1]).value, actions[|actions| - 1]);
    }
  }

  lemma RunInv(replicas: nat, interval: nat, now: int, actions: seq<Action>)
    requires Run(Init(replicas, interval, now), actions).Some?
    ensures Inv(Run(Init(replicas, interval, now), actions).value)
  {
    InitInv(replicas, interval, now);
    RunKeepsInv(Init(replicas, interval, now), actions);
  }

  /** In every run, a replica unlocks only once lead and every duty started in it have returned. */
  lemma UnlocksOnlyAfterLead(replicas: nat, interval: nat, now: int, actions: seq<Action>, i: nat)
    requires Run(Init(replicas, interval, now), actions).Some?
    requires Apply(Run(Init(replicas, interval, now), actions).value, Unlock(i)).Some?
    ensures
      var r := Run(Init(replicas, interval, now), actions).value.replicas[i];
      !r.running && r.duties == 0
  {
    RunInv(replicas, interval, now, actions);
    hide Run;
    OkAt(Run(Init(replicas, interval, now), actions).value, i);
  }

  /** Two replicas run lead at once only after the server dropped the session of the one granted first. */
  lemma TwoLeadersOnlyAfterADrop(replicas: nat, interval: nat, now: int, actions: seq<Action>, i: nat, j: nat)
    requires Run(Init(replicas, interval, now), actions).Some?
    requires
      var s := Run(Init(replicas, interval, now), actions).value;
      i < |s.replicas| && j < |s.replicas| && i != j && s.replicas[i].running && s.replicas[j].running
    ensures
      var s := Run(Init(replicas, interval, now), actions).value;
      var a, b := s.replicas[i].session, s.replicas[j].session;
      a != b && (if a < b then a else b) in s.dropped
  {
    RunInv(replicas, interval, now, actions);
    hide Run;
    var s := Run(Init(replicas, interval, now), actions).value;
    OkAt(s, i);
    OkAt(s, j);
    OrderedAt(s, i, j);
    OrderedAt(s, j, i);
  }

  /**
    A replica whose session the server dropped has its lead cancelled no later than its next bounded ping:
    past the interval and the bound after the drop, it leads uncancelled no more.
   */
  lemma DroppedLeaderIsCancelledInTime(replicas: nat, interval: nat, now: int, actions: seq<Action>, i: nat)
    requires Run(Init(replicas, interval, now), actions).Some?
    requires
      var s := Run(Init(replicas, interval, now), actions).value;
      i < |s.replicas| && s.replicas[i].session in s.dropped && (s.replicas[i].phase.Leading? || s.replicas[i].phase.Pinging?)
    ensures
      var s := Run(Init(replicas, interval, now), actions).value;
      s.now <= s.dropped[s.replicas[i].session] + s.interval + LOCK_TIMEOUT
  {
    RunInv(replicas, interval, now, actions);
    hide Run;
    OkAt(Run(Init(replicas, interval, now), actions).value, i);
  }

  lemma RunNext(s: State, actions: seq<Action>, a: Action, t: State)
    requires Run(s, actions).Some? && Apply(Run(s, actions).value, a) == Some(t)
    ensures Run(s, actions + [a]) == Some(t)
  {
    hide Apply;
    assert (actions + [a])[..|actions|] == actions;
  }

  function Led(phase: Phase, session: nat): Replica {
    Replica(phase, session, true, 0)
  }

  lemma SecondGrant(interval: nat, now: int) returns (t: State)
    ensures Run(Init(2, interval, now), [TryLock(0), Drop(0), TryLock(1)]) == Some(t)
    ensures t == State(interval, [Led(Leading(now + interval), 0), Led(Leading(now + interval), 1)], Some(1), 2, map[0 := now], now)
  {
    var s := Init(2, interval, now);
    assert s.replicas == [Replica(Waiting, 0, false, 0), Replica(Waiting, 0, false, 0)];
    var a := Apply(s, TryLock(0)).value;
    assert a.replicas == [Led(Leading(now + interval), 0), Replica(Waiting, 0, false, 0)];
    var b := Apply(a, Drop(0)).value;
    t := Apply(b, TryLock(1)).value;
    assert t.replicas == [Led(Leading(now + interval), 0), Led(Leading(now + interval), 1)];
    hide Apply, Init;
    RunNext(s, [], TryLock(0), a);
    RunNext(s, [TryLock(0)], Drop(0), b);
    RunNext(s, [TryLock(0), Drop(0)], TryLock(1), t);
  }

  lemma Lapses(s: State, now: int, interval: nat) returns (a: State, b: State, t: State)
    requires s == State(interval, [Led(Leading(now + interval), 0), Led(Leading(now + interval), 1)], Some(1), 2, map[0 := now], now)
    ensures Apply(s, Tick(interval)) == Some(a) && Apply(a, StartPing(0)) == Some(b) && Apply(b, StartPing(1)) == Some(t)
    ensures t.now == now + interval && t.dropped == map[0 := now]
    ensures t.replicas == [Led(Pinging(t.now + LOCK_TIMEOUT), 0), Led(Pinging(t.now + LOCK_TIMEOUT), 1)]
  {
    a := s.(now := now + interval);
    b := Apply(a, StartPing(0)).value;
    assert b.replicas == [Led(Pinging(a.now + LOCK_TIMEOUT), 0), Led(Leading(now + interval), 1)];
    t := Apply(b, StartPing(1)).value;
    assert t.replicas == [Led(Pinging(a.now + LOCK_TIMEOUT), 0), Led(Pinging(a.now + LOCK_TIMEOUT), 1)];
  }

  /**
    After a drop two replicas do lead at once, for as long as the first takes to notice: for any interval there is a
    run in which the first still leads, uncancelled, the whole interval and the bound after its session was dropped.
   */
  lemma TwoLeadersForTheWholeBound(interval: nat, now: int) returns (t: State)
    ensures
      var actions := [TryLock(0), Drop(0), TryLock(1)] + [Tick(interval)] + [StartPing(0)] + [StartPing(1)] + [Tick(LOCK_TIMEOUT)];
      Run(Init(2, interval, now), actions) == Some(t)
    ensures |t.replicas| == 2 && t.replicas[0].running && t.replicas[0].phase.Pinging? && t.replicas[1].running
    ensures t.dropped == map[0 := now] && t.now == now + interval + LOCK_TIMEOUT
  {
    var s := Init(2, interval, now);
    var both := SecondGrant(interval, now);
    var a, b, c := Lapses(both, now, interval);
    t := c.(now := c.now + LOCK_TIMEOUT);
    assert Apply(c, Tick(LOCK_TIMEOUT)) == Some(t);
    hide Apply, Init, Run;
    var actions := [TryLock(0), Drop(0), TryLock(1)];
    RunNext(s, actions, Tick(interval), a);
    RunNext(s, actions + [Tick(interval)], StartPing(0), b);
    RunNext(s, actions + [Tick(interval)] + [StartPing(0)], StartPing(1), c);
    RunNext(s, actions + [Tick(interval)] + [StartPing(0)] + [StartPing(1)], Tick(LOCK_TIMEOUT), t);
  }

  // ---- One attempt at the lock, in place ----

  ghost predicate Reaches(s: State, t: State) {
    exists actions :: Run(s, actions) == Some(t)
  }

  lemma ReachesSelf(s: State)
    ensures Reaches(s, s)
  {
    assert Run(s, []) == Some(s);
  }

  lemma {:induction false} RunAppend(s: State, a: seq<Action>, b: seq<Action>)
    requires Run(s, a).Some?
    ensures Run(s, a + b) == Run(Run(s, a).value, b)
    decreases |b|
  {
    hide Apply;
    if b == [] {
      assert a + b == a;
    } else {
      var before := b[..|b| - 1];
      RunAppend(s, a, before);
      assert (a + b)[..|a + b| - 1] == a + before;
    }
  }

  lemma ReachesThrough(s: State, t: State, u: State)
    requires Reaches(s, t) && Reaches(t, u)
    ensures Reaches(s, u)
  {
    hide Run;
    var a :| Run(s, a) == Some(t);
    var b :| Run(t, b) == Some(u);
    RunAppend(s, a, b);
  }

  lemma ReachesNext(s: State, t: State, a: Action, next: State)
    requires Reaches(s, t) && Apply(t, a) == Some(next)
    ensures Reaches(s, next)
  {
    var actions :| Run(s, actions) == Some(t);
    assert (actions + [a])[..|actions|] == actions;
    assert Run(s, actions + [a]) == Some(next);
  }

  /** The actions of replica i's own loop; its lead and duties run beside it. */
  predicate OfLoop(a: Action, i: nat) {
    !a.Tick? && !a.Drop? && !a.StartDuty? && !a.EndDuty? && !a.LeadReturns? && a.replica == i
  }

  lemma OthersKeepThePhase(s: State, a: Action, i: nat)
    requires i < |s.replicas| && Apply(s, a).Some? && !OfLoop(a, i)
    ensures
      var t := Apply(s, a).value;
      |t.replicas| == |s.replicas| && t.replicas[i].phase == s.replicas[i].phase && t.replicas[i].session == s.replicas[i].session
  {
  }

  lemma ReachedInv(s: State, t: State)
    requires Inv(s) && Reaches(s, t)
    ensures Inv(t)
  {
    hide Inv, Run;
    var actions :| Run(s, actions) == Some(t);
    RunKeepsInv(s, actions);
  }

  /** What the select loop wakes for. */
  datatype Wake = Done | ContextEnds | TickerFires(answered: bool)

  /**
    Whether the replica leads on after a wake: lead has not returned, the context has not ended, and the ping
    was answered in a session the server had not dropped by then.
   */
  predicate LeadsOn(before: State, wake: Wake, after: State, i: nat) {
    && i < |before.replicas|
    && match wake
       case Done => before.replicas[i].running
       case ContextEnds => false
       case TickerFires(answered) => answered && before.replicas[i].session !in after.dropped
  }

  /** A wake of the select loop: the states before and after it. */
  datatype Woken = Woken(before: State, after: State)

  function CameTo(start: State, met: seq<Woken>): State {
    if met == [] then start else met[|met| - 1].after
  }

  ghost predicate WokenAt(start: State, wakes: seq<Wake>, met: seq<Woken>, k: nat, i: nat)
    requires k < |met| <= |wakes|
  {
    && i < |met[k].before.replicas| && met[k].before.replicas[i].phase.Leading?
    && Reaches(CameTo(start, met[..k]), met[k].before)
    && Reaches(met[k].before, met[k].after)
    && (k < |met| - 1 ==> LeadsOn(met[k].before, wakes[k], met[k].after, i))
  }

  /** The wakes of one tenure follow each other, and the replica led on after each but the last. */
  ghost predicate Tenure(start: State, wakes: seq<Wake>, met: seq<Woken>, end: State, i: nat) {
    && |met| <= |wakes|
    && (forall k :: 0 <= k < |met| ==> WokenAt(start, wakes, met, k, i))
    && Reaches(CameTo(start, met), end)
  }

  /** It ended at the first wake that ends it, or ran out of wakes. */
  predicate EndsAtFirst(wakes: seq<Wake>, met: seq<Woken>, i: nat) {
    |met| == |wakes|
    || (0 < |met| < |wakes| && !LeadsOn(met[|met| - 1].before, wakes[|met| - 1], met[|met| - 1].after, i))
  }

  lemma TenureBegins(start: State, wakes: seq<Wake>, i: nat)
    ensures Tenure(start, wakes, [], start, i)
  {
    ReachesSelf(start);
  }

  lemma TenureGoesOn(start: State, wakes: seq<Wake>, met: seq<Woken>, end: State, w: Woken, i: nat)
    requires Tenure(start, wakes, met, end, i) && |met| < |wakes|
    requires i < |w.before.replicas| && w.before.replicas[i].phase.Leading?
    requires Reaches(end, w.before) && Reaches(w.before, w.after)
    requires met != [] ==> LeadsOn(met[|met| - 1].before, wakes[|met| - 1], met[|met| - 1].after, i)
    ensures Tenure(start, wakes, met + [w], w.after, i)
  {
    hide Reaches, LeadsOn;
    ReachesThrough(CameTo(start, met), end, w.before);
    ReachesSelf(w.after);
    var all := met + [w];
    forall k | 0 <= k < |all| ensures WokenAt(start, wakes, all, k, i) {
      if k < |met| {
        assert all[..k] == met[..k];
        assert WokenAt(start, wakes, met, k, i);
      } else {
        assert all[..k] == met;
      }
    }
  }

  lemma TenureEnds(start: State, wakes: seq<Wake>, met: seq<Woken>, end: State, later: State, i: nat)
    requires Tenure(start, wakes, met, end, i) && Reaches(end, later)
    ensures Tenure(start, wakes, met, later, i)
  {
    hide Reaches, LeadsOn, WokenAt, CameTo;
    ReachesThrough(CameTo(start, met), end, later);
  }

  class Database {
    var state: State

    constructor (replicas: nat, interval: nat, now: int)
      ensures state == Init(replicas, interval, now)
    {
      state := Init(replicas, interval, now);
    }

    /** One action that can happen. */
    method Take(a: Action, ghost start: State)
      requires Reaches(start, state) && Apply(state, a).Some?
      modifies this
      ensures Reaches(start, state) && Apply(old(state), a) == Some(state)
    {
      ReachesNext(start, state, a, Apply(state, a).value);
      state := Apply(state, a).value;
    }

    /** What else happens meanwhile: time, the server, the other replicas, and replica i's lead and duties. */
    method Meanwhile(actions: seq<Action>, i: nat, ghost start: State)
      requires Reaches(start, state) && i < |state.replicas|
      modifies this
      ensures Reaches(start, state)
      ensures i < |state.replicas| && state.replicas[i].phase == old(state.replicas[i].phase)
      ensures state.replicas[i].session == old(state.replicas[i].session)
    {
      hide *;
      for k := 0 to |actions|
        invariant Reaches(start, state)
        invariant i < |state.replicas| && state.replicas[i].phase == old(state.replicas[i].phase)
        invariant state.replicas[i].session == old(state.replicas[i].session)
      {
        var next := Apply(state, actions[k]);
        if next.Some? && !OfLoop(actions[k], i) {
          OthersKeepThePhase(state, actions[k], i);
          ReachesNext(start, state, actions[k], next.value);
          state := next.value;
        }
      }
    }

    /** leadErr = <-done: lead ends its duties and returns, and the loop hears of it. */
    method WaitForLead(i: nat, ghost start: State)
      requires Inv(start) && Reaches(start, state) && i < |state.replicas|
      requires state.replicas[i].phase.Leading? || state.replicas[i].phase.Cancelled?
      modifies this
      ensures Reaches(start, state) && i < |state.replicas| && state.replicas[i].phase.Unlocking?
      ensures state.dropped == old(state.dropped) && state.holder == old(state.holder)
      ensures state.replicas[i].session == old(state.replicas[i].session)
    {
      hide Reaches, Inv;
      while state.replicas[i].duties > 0
        invariant Reaches(start, state) && i < |state.replicas|
        invariant state.replicas[i].phase.Leading? || state.replicas[i].phase.Cancelled?
        invariant state.dropped == old(state.dropped) && state.holder == old(state.holder)
        invariant state.replicas[i].session == old(state.replicas[i].session)
        decreases state.replicas[i].duties
      {
        Take(EndDuty(i), start);
      }
      if state.replicas[i].running {
        Take(LeadReturns(i), start);
      }
      Take(Observe(i), start);
    }

    /** cancel, then wait for lead. */
    method StepDown(i: nat, a: Action, ghost start: State)
      requires Inv(start) && Reaches(start, state) && i < |state.replicas|
      requires (a == Cancel(i) && state.replicas[i].phase.Leading?) || (a == PingFails(i) && state.replicas[i].phase.Pinging?)
      modifies this
      ensures Reaches(start, state) && i < |state.replicas| && state.replicas[i].phase.Unlocking?
      ensures state.dropped == old(state.dropped) && state.holder == old(state.holder)
      ensures state.replicas[i].session == old(state.replicas[i].session)
    {
      hide Reaches, Inv;
      Take(a, start);
      WaitForLead(i, start);
    }

    /** One round of the select loop, which goes on while the replica leads. */
    method Round(i: nat, wake: Wake, meanwhile: seq<Action>, ghost start: State)
      requires Inv(start) && Reaches(start, state) && i < |state.replicas| && state.replicas[i].phase.Leading?
      modifies this
      ensures Reaches(start, state) && i < |state.replicas|
      ensures if LeadsOn(old(state), wake, state, i) then state.replicas[i].phase.Leading? else state.replicas[i].phase.Unlocking?
      ensures state.replicas[i].session == old(state.replicas[i].session)
    {
      hide Reaches, Inv;
      match wake {
        case Done =>
          if !state.replicas[i].running {
            Take(Observe(i), start);
          }
        case ContextEnds => StepDown(i, Cancel(i), start);
        case TickerFires(answered) =>
          Take(StartPing(i), start);
          Meanwhile(meanwhile, i, start);
          if answered && state.replicas[i].session !in state.dropped {
            Take(PingOk(i), start);
          } else {
            StepDown(i, PingFails(i), start);
          }
      }
    }

    /** The step-down that is still owed, and the unlock. */
    method Finish(i: nat, unlocks: bool, ghost start: State, ghost last: State)
      requires Inv(start) && Reaches(start, last) && last == state && i < |state.replicas|
      requires state.replicas[i].phase.Leading? || state.replicas[i].phase.Unlocking?
      modifies this
      ensures Reaches(last, state) && Reaches(start, state)
      ensures i < |state.replicas| && state.replicas[i].phase.Waiting?
      ensures if unlocks then state.holder != Some(old(state.replicas[i].session)) else state.holder == old(state.holder)
    {
      hide Reaches, Inv;
      ReachedInv(start, last);
      ReachesSelf(last);
      if state.replicas[i].phase.Leading? {
        StepDown(i, Cancel(i), last);
      }
      if unlocks {
        Take(Unlock(i), last);
      } else {
        Take(UnlockFails(i), last);
      }
      ReachesThrough(start, last, state);
    }

    /**
      tryLead: whatever wakes the loop, and whatever happens between, it takes only steps of the protocol, leads
      until the first wake that ends it, and ends without the lock's phase, with nothing of this replica's
      running. `met` are the wakes it came to.
     */
    method TryLead(i: nat, wakes: seq<Wake>, meanwhile: nat -> seq<Action>, unlocks: bool)
      returns (held: bool, ghost met: seq<Woken>)
      requires Inv(state) && i < |state.replicas| && state.replicas[i].phase.Waiting?
      modifies this
      ensures Reaches(old(state), state) && Inv(state)
      ensures i < |state.replicas| && state.replicas[i].phase.Waiting?
      ensures !state.replicas[i].running && state.replicas[i].duties == 0
      ensures held <==> old(state.holder).None?
      ensures if held then Tenure(old(state), wakes, met, state, i) && EndsAtFirst(wakes, met, i) else state == old(state)
      ensures held && unlocks ==> state.holder != Some(old(state.granted))
    {
      hide Reaches, Inv, Tenure, LeadsOn;
      ghost var start := state;
      ReachesSelf(start);
      held, met := state.holder.None?, [];
      TenureBegins(start, wakes, i);
      Take(TryLock(i), start);
      if held {
        TenureEnds(start, wakes, [], start, state, i);
        var k := 0;
        while k < |wakes| && state.replicas[i].phase.Leading?
          invariant k == |met| <= |wakes| && Reaches(start, state) && i < |state.replicas|
          invariant state.replicas[i].phase.Leading? || state.replicas[i].phase.Unlocking?
          invariant Tenure(start, wakes, met, state, i) && state.replicas[i].session == start.granted
          invariant state.replicas[i].phase.Unlocking? ==> k > 0
          invariant k > 0 ==>
            (state.replicas[i].phase.Leading? <==> LeadsOn(met[k - 1].before, wakes[k - 1], met[k - 1].after, i))
        {
          ghost var last := state;
          ReachesSelf(last);
          Meanwhile(meanwhile(2 * k), i, last);
          ghost var before := state;
          ReachesThrough(start, last, before);
          ReachedInv(start, before);
          ReachesSelf(before);
          Round(i, wakes[k], meanwhile(2 * k + 1), before);
          ReachesThrough(start, before, state);
          TenureGoesOn(start, wakes, met, last, Woken(before, state), i);
          met := met + [Woken(before, state)];
          k := k + 1;
        }
        ghost var last := state;
        ReachesSelf(last);
        Finish(i, unlocks, start, last);
        TenureEnds(start, wakes, met, last, state, i);
      }
      ReachedInv(start, state);
      OkAt(state, i);
    }
  }
}
