/**
  Model leases (internal/store/lease.go): how many calls an account may have on a model key, as rows that a job
  holds until it releases them or its last renewal is too old. Every statement names one account and key, so the
  model is that key's rows by slot. Each statement is one atomic action; time is a number of seconds that
  only grows.
 */
module Leases {
  import opened Prelude

  const EXPIRY := 120

  datatype Row = Free | Held(job: int, expires: int)

  type Rows = map<int, Row>

  // ---- The statements ----

  /** generate_series. */
  function Offered(slots: int): (all: set<int>)
    ensures forall i :: i in all <==> 1 <= i <= slots
    ensures |all| == if slots < 0 then 0 else slots
    decreases if slots < 0 then 0 else slots
  {
    if slots <= 0 then {} else Offered(slots - 1) + {slots}
  }

  /** INSERT ... ON CONFLICT DO NOTHING: rows 1 to `slots` exist. */
  function Ensured(rows: Rows, slots: int): Rows {
    map k | k in rows.Keys + Offered(slots) :: if k in rows then rows[k] else Free
  }

  /** job_id IS NULL OR expires_at < now(). */
  predicate Available(row: Row, now: int) {
    row.Free? || row.expires < now
  }

  /** ORDER BY slot LIMIT 1 FOR UPDATE SKIP LOCKED, from `k` on; `locked` are the rows other transactions hold. */
  function LowestFree(rows: Rows, k: int, slots: int, now: int, locked: set<int>): Option<int>
    decreases slots - k
  {
    if k > slots then None
    else if k in rows && Available(rows[k], now) && k !in locked then Some(k)
    else LowestFree(rows, k + 1, slots, now, locked)
  }

  function Chosen(rows: Rows, slots: int, now: int, locked: set<int>): Option<int> {
    LowestFree(Ensured(rows, slots), 1, slots, now, locked)
  }

  function Taken(rows: Rows, slots: int, job: int, now: int, locked: set<int>): Rows {
    var ensured := Ensured(rows, slots);
    match LowestFree(ensured, 1, slots, now, locked)
    case None => ensured
    case Some(k) => ensured[k := Held(job, now + EXPIRY)]
  }

  predicate Owns(rows: Rows, slot: int, job: int) {
    slot in rows && rows[slot].Held? && rows[slot].job == job
  }

  function Renewed(rows: Rows, slot: int, job: int, now: int): Rows {
    if Owns(rows, slot, job) then rows[slot := Held(job, now + EXPIRY)] else rows
  }

  function Released(rows: Rows, slot: int, job: int): Rows {
    if Owns(rows, slot, job) then rows[slot := Free] else rows
  }

  /** The rows up to `slots` that a live lease holds. */
  function HeldSlots(rows: Rows, slots: int, now: int): set<int> {
    set k | k in rows && k <= slots && !Available(rows[k], now)
  }

  function SlotFree(rows: Rows, slots: int, now: int): bool {
    |HeldSlots(rows, slots, now)| < slots
  }

  // ---- The protocol ----

  /**
    Live: renewed every heartbeat. Closing: Release has stopped the heartbeats, and its UPDATE is to come.
    Dead: its process ended, or that UPDATE failed, so that nothing touches its row any more for its sake.
   */
  datatype Phase = Live | Closing | Dead | Gone

  /** A lease as its holder knows it. `renewedAt`: when a statement of its last set the row's expiry. */
  datatype Lease = Lease(slot: int, job: int, renewedAt: int, phase: Phase)

  datatype State = State(rows: Rows, leases: seq<Lease>, now: int)

  datatype Action =
    | Tick(seconds: nat)
    | Take(slots: int, job: int, locked: set<int>)
    | Beat(lease: nat)
    | Close(lease: nat)
    | Release(lease: nat)
    | Die(lease: nat)

  function Init(now: int): State {
    State(map[], [], now)
  }

  /** One of its statements may still reach its row. */
  predicate Acts(l: Lease) {
    l.phase.Live? || l.phase.Closing?
  }

  /** One action; None when it cannot happen in `s`. */
  function Apply(s: State, a: Action): Option<State> {
    match a
    case Tick(seconds) => Some(s.(now := s.now + seconds))
    case Take(slots, job, locked) =>
      var rows := Taken(s.rows, slots, job, s.now, locked);
      (match Chosen(s.rows, slots, s.now, locked)
       case None => Some(s.(rows := rows))
       case Some(k) => Some(s.(rows := rows, leases := s.leases + [Lease(k, job, s.now, Live)])))
    case Beat(i) =>
      if i >= |s.leases| || !s.leases[i].phase.Live? then None
      else
        var l := s.leases[i];
        if !Owns(s.rows, l.slot, l.job) then Some(s)
        else Some(s.(rows := Renewed(s.rows, l.slot, l.job, s.now), leases := s.leases[i := l.(renewedAt := s.now)]))
    case Close(i) =>
      if i >= |s.leases| || !s.leases[i].phase.Live? then None
      else Some(s.(leases := s.leases[i := s.leases[i].(phase := Closing)]))
    case Release(i) =>
      if i >= |s.leases| || !s.leases[i].phase.Closing? then None
      else
        var l := s.leases[i];
        Some(s.(rows := Released(s.rows, l.slot, l.job), leases := s.leases[i := l.(phase := Gone)]))
    case Die(i) =>
      if i >= |s.leases| || !Acts(s.leases[i]) then None
      else Some(s.(leases := s.leases[i := s.leases[i].(phase := Dead)]))
  }

  function Run(s: State, actions: seq<Action>): Option<State>
    decreases |actions|
  {
    if actions == [] then Some(s)
    else
      match Run(s, actions[..|actions| - 1])
      case None => None
      case Some(before) => Apply(before, actions[|actions| - 1])
  }

  /** A lease not given back whose last renewal is no older than the expiry. */
  predicate InDate(l: Lease, now: int) {
    !l.phase.Gone? && l.renewedAt + EXPIRY >= now
  }

  /** An in-date holder's row is its own, and lasts as long as its last renewal says. */
  predicate Backed(s: State, l: Lease) {
    InDate(l, s.now) ==> l.slot in s.rows && s.rows[l.slot] == Held(l.job, l.renewedAt + EXPIRY)
  }

  ghost predicate AllBacked(s: State) {
    forall i :: 0 <= i < |s.leases| ==> Backed(s, s.leases[i])
  }

  predicate Clear(l: Lease, m: Lease, now: int) {
    InDate(l, now) && InDate(m, now) ==> l.slot != m.slot
  }

  /** What the slots are for: every in-date holder has a slot, and has it to itself. */
  ghost predicate Sound(s: State) {
    && AllBacked(s)
    && (forall i, j :: 0 <= i < |s.leases| && 0 <= j < |s.leases| && i != j ==> Clear(s.leases[i], s.leases[j], s.now))
  }

  /** The statement would give the job a slot that a lease of the same job may yet renew or release. */
  predicate Clashes(s: State, a: Action) {
    && a.Take?
    && Chosen(s.rows, a.slots, s.now, a.locked).Some?
    && Reached(s, a.job, Chosen(s.rows, a.slots, s.now, a.locked).value)
  }

  /** A lease of the job may still act on the slot. */
  predicate Reached(s: State, job: int, slot: int) {
    exists i :: 0 <= i < |s.leases| && Reaching(s.leases[i], job, slot)
  }

  predicate Reaching(l: Lease, job: int, slot: int) {
    Acts(l) && l.job == job && l.slot == slot
  }

  /** Of the job's leases at most `own` may still act. */
  ghost predicate Only(s: State, job: int, own: Option<nat>) {
    forall i :: 0 <= i < |s.leases| && Acts(s.leases[i]) && s.leases[i].job == job ==> own == Some(i)
  }

  ghost predicate Idle(s: State, job: int) {
    Only(s, job, None)
  }

  /** A run in which no take clashes. */
  ghost predicate Calm(s: State, actions: seq<Action>)
    decreases |actions|
  {
    actions != [] ==>
      var before := actions[..|actions| - 1];
      && Calm(s, before)
      && (Run(s, before).Some? ==> !Clashes(Run(s, before).value, actions[|actions| - 1]))
  }

  /** Every job took a lease only when none of its earlier ones could act any more. */
  ghost predicate OneAtATime(s: State, actions: seq<Action>)
    decreases |actions|
  {
    actions != [] ==>
      var before, a := actions[..|actions| - 1], actions[|actions| - 1];
      && OneAtATime(s, before)
      && (Run(s, before).Some? && a.Take? ==> Idle(Run(s, before).value, a.job))
  }

  predicate FromOne(rows: Rows) {
    forall k :: k in rows ==> k >= 1
  }

  // ---- Choosing a slot ----

  /** The chosen slot is offered, unlocked and free, and no lower one is. */
  lemma {:induction false} LowestFreeIsLowest(rows: Rows, k: int, slots: int, now: int, locked: set<int>)
    ensures
      match LowestFree(rows, k, slots, now, locked)
      case None => forall j :: k <= j <= slots && j in rows && j !in locked ==> !Available(rows[j], now)
      case Some(r) =>
        && k <= r <= slots && r in rows && Available(rows[r], now) && r !in locked
        && forall j :: k <= j < r && j in rows && j !in locked ==> !Available(rows[j], now)
    decreases slots - k
  {
    if k <= slots && !(k in rows && Available(rows[k], now) && k !in locked) {
      LowestFreeIsLowest(rows, k + 1, slots, now, locked);
    }
  }

  lemma Fits(a: set<int>, b: set<int>)
    requires a <= b
    ensures |a| <= |b|
    ensures |a| == |b| ==> a == b
  {
    assert b == a + (b - a);
    assert |b| == |a| + |b - a|;
  }

  lemma HeldAmongOffered(rows: Rows, slots: int, now: int)
    requires FromOne(rows)
    ensures HeldSlots(rows, slots, now) <= Offered(slots)
  {
  }

  lemma NoneFree(rows: Rows, slots: int, now: int)
    requires Chosen(rows, slots, now, {}).None?
    ensures Offered(slots) <= HeldSlots(rows, slots, now)
  {
    var ensured := Ensured(rows, slots);
    LowestFreeIsLowest(ensured, 1, slots, now, {});
    assert forall k :: k in Offered(slots) ==> k in ensured && !Available(ensured[k], now);
  }

  lemma OneFree(rows: Rows, slots: int, now: int)
    requires Chosen(rows, slots, now, {}).Some?
    ensures
      var k := Chosen(rows, slots, now, {}).value;
      k in Offered(slots) && k !in HeldSlots(rows, slots, now)
  {
    LowestFreeIsLowest(Ensured(rows, slots), 1, slots, now, {});
  }

  /** SlotFree says exactly whether TakeLease, with nothing locked, would claim a slot in that state. */
  lemma SlotFreeIffTaken(rows: Rows, slots: int, now: int)
    requires FromOne(rows)
    ensures SlotFree(rows, slots, now) <==> Chosen(rows, slots, now, {}).Some?
  {
    hide Chosen, HeldSlots, Offered, FromOne;
    var held, all := HeldSlots(rows, slots, now), Offered(slots);
    HeldAmongOffered(rows, slots, now);
    Fits(held, all);
    if Chosen(rows, slots, now, {}).None? {
      NoneFree(rows, slots, now);
      assert held == all;
    } else {
      OneFree(rows, slots, now);
    }
  }

  // ---- Every run ----

  lemma TakenElsewhere(rows: Rows, slots: int, job: int, now: int, locked: set<int>, k: int)
    requires k in rows && !Available(rows[k], now)
    ensures
      var next := Taken(rows, slots, job, now, locked);
      k in next && next[k] == rows[k]
    ensures Chosen(rows, slots, now, locked) != Some(k)
  {
    LowestFreeIsLowest(Ensured(rows, slots), 1, slots, now, locked);
  }

  lemma TakenHere(rows: Rows, slots: int, job: int, now: int, locked: set<int>)
    requires Chosen(rows, slots, now, locked).Some?
    ensures
      var next, k := Taken(rows, slots, job, now, locked), Chosen(rows, slots, now, locked).value;
      k in next && next[k] == Held(job, now + EXPIRY) && 1 <= k <= slots
  {
    LowestFreeIsLowest(Ensured(rows, slots), 1, slots, now, locked);
  }

  predicate Using(l: Lease, now: int) {
    Acts(l) || InDate(l, now)
  }

  /** Two leases that are both in date, or of one job and both in use, are of different slots. */
  predicate Apart(l: Lease, m: Lease, now: int) {
    (InDate(l, now) && InDate(m, now)) || (l.job == m.job && Using(l, now) && Using(m, now)) ==> l.slot != m.slot
  }

  ghost predicate AllApart(s: State) {
    forall i, j :: 0 <= i < |s.leases| && 0 <= j < |s.leases| && i != j ==> Apart(s.leases[i], s.leases[j], s.now)
  }

  ghost predicate Inv(s: State) {
    AllBacked(s) && AllApart(s)
  }

  lemma InvIsSound(s: State)
    requires Inv(s)
    ensures Sound(s)
  {
    hide Backed, InDate;
    forall i, j | 0 <= i < |s.leases| && 0 <= j < |s.leases| && i != j ensures Clear(s.leases[i], s.leases[j], s.now) {
      assert Apart(s.leases[i], s.leases[j], s.now);
    }
  }

  lemma BackedAt(s: State, i: nat)
    requires AllBacked(s) && i < |s.leases|
    ensures Backed(s, s.leases[i])
  {
  }

  lemma ApartAt(s: State, i: nat, j: nat)
    requires AllApart(s) && i < |s.leases| && j < |s.leases| && i != j
    ensures Apart(s.leases[i], s.leases[j], s.now)
  {
  }

  /** A statement of one lease leaves the row of another it is apart from. */
  lemma OtherRowKept(s: State, l: Lease, m: Lease)
    requires Acts(l) && Backed(s, m) && InDate(m, s.now) && Apart(l, m, s.now)
    ensures
      var renewed := Renewed(s.rows, l.slot, l.job, s.now);
      m.slot in renewed && renewed[m.slot] == s.rows[m.slot]
    ensures
      var released := Released(s.rows, l.slot, l.job);
      m.slot in released && released[m.slot] == s.rows[m.slot]
  {
  }

  lemma TakeBacked(s: State, a: Action, i: nat)
    requires AllBacked(s) && a.Take? && i < |Apply(s, a).value.leases|
    ensures Backed(Apply(s, a).value, Apply(s, a).value.leases[i])
  {
    hide Taken, Chosen, AllBacked;
    if i < |s.leases| {
      BackedAt(s, i);
      if InDate(s.leases[i], s.now) {
        TakenElsewhere(s.rows, a.slots, a.job, s.now, a.locked, s.leases[i].slot);
      }
    } else {
      TakenHere(s.rows, a.slots, a.job, s.now, a.locked);
    }
  }

  lemma StepBacked(s: State, a: Action, t: State, i: nat)
    requires Inv(s) && Apply(s, a) == Some(t) && i < |t.leases|
    ensures Backed(t, t.leases[i])
  {
    hide AllBacked, AllApart, Taken, Chosen;
    if a.Take? {
      TakeBacked(s, a, i);
    } else {
      BackedAt(s, i);
      if !a.Tick? && i != a.lease && InDate(s.leases[i], s.now) && Acts(s.leases[a.lease]) {
        ApartAt(s, a.lease, i);
        OtherRowKept(s, s.leases[a.lease], s.leases[i]);
      }
    }
  }

  /** A slot given by a take that does not clash is apart from every other lease. */
  lemma TakenApart(s: State, a: Action, l: Lease)
    requires a.Take? && Chosen(s.rows, a.slots, s.now, a.locked).Some? && Backed(s, l)
    requires !Reaching(l, a.job, Chosen(s.rows, a.slots, s.now, a.locked).value)
    ensures Apart(l, Lease(Chosen(s.rows, a.slots, s.now, a.locked).value, a.job, s.now, Live), s.now)
    ensures Apart(Lease(Chosen(s.rows, a.slots, s.now, a.locked).value, a.job, s.now, Live), l, s.now)
  {
    hide Taken, Chosen;
    if InDate(l, s.now) {
      TakenElsewhere(s.rows, a.slots, a.job, s.now, a.locked, l.slot);
    }
  }

  /** A statement of a lease that may act leaves it apart from whatever it was apart from. */
  lemma ActingStaysApart(s: State, l: Lease, l': Lease, m: Lease)
    requires Acts(l) && Apart(l, m, s.now) && Apart(m, l, s.now) && Backed(s, m)
    requires l'.slot == l.slot && l'.job == l.job
    requires
      || (l'.renewedAt == l.renewedAt)
      || (l'.renewedAt == s.now && Owns(s.rows, l.slot, l.job))
    ensures Apart(l', m, s.now) && Apart(m, l', s.now)
  {
  }

  lemma StepApart(s: State, a: Action, t: State, i: nat, j: nat)
    requires Inv(s) && Apply(s, a) == Some(t) && !Clashes(s, a) && i < |t.leases| && j < |t.leases| && i != j
    ensures Apart(t.leases[i], t.leases[j], t.now)
  {
    hide AllBacked, AllApart, Taken, Chosen, Backed, Apart, Renewed, Released, InDate;
    if i < |s.leases| && j < |s.leases| {
      ApartAt(s, i, j);
      ApartAt(s, j, i);
      BackedAt(s, i);
      BackedAt(s, j);
      match a
      case Tick(n) => LaterApart(s.leases[i], s.leases[j], s.now, n);
      case Take(_, _, _) =>
      case _ =>
        if a.lease == i {
          ActingStaysApart(s, s.leases[i], t.leases[i], s.leases[j]);
        } else if a.lease == j {
          ActingStaysApart(s, s.leases[j], t.leases[j], s.leases[i]);
        }
    } else {
      var k := if i < |s.leases| then i else j;
      BackedAt(s, k);
      assert !Reaching(s.leases[k], a.job, Chosen(s.rows, a.slots, s.now, a.locked).value);
      TakenApart(s, a, s.leases[k]);
    }
  }

  lemma LaterApart(l: Lease, m: Lease, now: int, n: nat)
    requires Apart(l, m, now)
    ensures Apart(l, m, now + n)
  {
  }

  /** Every step but a clashing take keeps the invariant. */
  lemma StepKeepsInv(s: State, a: Action, t: State)
    requires Inv(s) && Apply(s, a) == Some(t) && !Clashes(s, a)
    ensures Inv(t)
  {
    hide Backed, Apart, Clashes, Apply;
    forall i | 0 <= i < |t.leases| ensures Backed(t, t.leases[i]) {
      StepBacked(s, a, t, i);
    }
    forall i, j | 0 <= i < |t.leases| && 0 <= j < |t.leases| && i != j ensures Apart(t.leases[i], t.leases[j], t.now) {
      StepApart(s, a, t, i, j);
    }
  }

  /** A run in which no take clashes keeps the invariant. */
  lemma {:induction false} CalmRunsKeepInv(s: State, actions: seq<Action>)
    requires Inv(s) && Run(s, actions).Some? && Calm(s, actions)
    ensures Inv(Run(s, actions).value)
    decreases |actions|
  {
    if actions != [] {
      hide Inv, Apply, Clashes;
      var before, a := actions[..|actions| - 1], actions[|actions| - 1];
      CalmRunsKeepInv(s, before);
      StepKeepsInv(Run(s, before).value, a, Run(s, actions).value);
    }
  }

  /** A job with no lease that may still act clashes with none, so a run with one at a time is calm. */
  lemma {:induction false} OneAtATimeIsCalm(s: State, actions: seq<Action>)
    requires OneAtATime(s, actions)
    ensures Calm(s, actions)
    decreases |actions|
  {
    if actions != [] {
      OneAtATimeIsCalm(s, actions[..|actions| - 1]);
    }
  }

  lemma RunSnoc(s: State, actions: seq<Action>, a: Action)
    requires Run(s, actions).Some?
    ensures Run(s, actions + [a]) == Apply(Run(s, actions).value, a)
    ensures Calm(s, actions + [a]) <==> Calm(s, actions) && !Clashes(Run(s, actions).value, a)
  {
    hide Apply, Clashes;
    assert (actions + [a])[..|actions|] == actions;
  }

  /** By a run in which no take clashes. */
  ghost predicate Reaches(s: State, t: State) {
    exists actions :: Run(s, actions) == Some(t) && Calm(s, actions)
  }

  lemma ReachesSelf(s: State)
    ensures Reaches(s, s)
  {
    assert Run(s, []) == Some(s) && Calm(s, []);
  }

  lemma ReachesNext(start: State, s: State, a: Action, t: State)
    requires Reaches(start, s) && Apply(s, a) == Some(t) && !Clashes(s, a)
    ensures Reaches(start, t)
  {
    hide Apply, Clashes, Run, Calm;
    var actions :| Run(start, actions) == Some(s) && Calm(start, actions);
    RunSnoc(start, actions, a);
    assert Run(start, actions + [a]) == Some(t);
  }

  lemma ReachedInv(s: State, t: State)
    requires Inv(s) && Reaches(s, t)
    ensures Inv(t)
  {
    hide Inv, Run, Calm;
    var actions :| Run(s, actions) == Some(t) && Calm(s, actions);
    CalmRunsKeepInv(s, actions);
  }

  /** Two in-date holders never own the same slot, and each still owns its own. */
  lemma InDateHoldersNeverShare(now: int, actions: seq<Action>, i: nat, j: nat)
    requires Run(Init(now), actions).Some? && Calm(Init(now), actions)
    requires
      var s := Run(Init(now), actions).value;
      i < |s.leases| && j < |s.leases| && i != j && InDate(s.leases[i], s.now) && InDate(s.leases[j], s.now)
    ensures
      var s := Run(Init(now), actions).value;
      && s.leases[i].slot != s.leases[j].slot
      && Owns(s.rows, s.leases[i].slot, s.leases[i].job)
  {
    CalmRunsKeepInv(Init(now), actions);
    hide Run, Calm;
    var s := Run(Init(now), actions).value;
    BackedAt(s, i);
    ApartAt(s, i, j);
  }

  predicate KeepsRow(s: State, next: Option<State>, slot: int)
    requires slot in s.rows
  {
    next.Some? ==> slot in next.value.rows && next.value.rows[slot] == s.rows[slot]
  }

  /** Whatever another holder does, late or not, an in-date holder's row stays as it is. */
  lemma OthersNeverAlterAHeldSlot(now: int, actions: seq<Action>, i: nat, j: nat)
    requires Run(Init(now), actions).Some? && Calm(Init(now), actions)
    requires
      var s := Run(Init(now), actions).value;
      i < |s.leases| && j < |s.leases| && i != j && InDate(s.leases[i], s.now)
    ensures
      var s := Run(Init(now), actions).value;
      var slot := s.leases[i].slot;
      && slot in s.rows
      && KeepsRow(s, Apply(s, Beat(j)), slot)
      && KeepsRow(s, Apply(s, Release(j)), slot)
  {
    CalmRunsKeepInv(Init(now), actions);
    hide Run, Calm;
    var s := Run(Init(now), actions).value;
    BackedAt(s, i);
    if Acts(s.leases[j]) {
      ApartAt(s, j, i);
      OtherRowKept(s, s.leases[j], s.leases[i]);
    }
  }

  // ---- Exactly when a statement does harm ----

  /** A heartbeat puts two in-date holders on one slot exactly when it is of the other's job and slot. */
  lemma BeatSharesIff(s: State, i: nat, j: nat)
    requires AllBacked(s) && i < |s.leases| && j < |s.leases| && i != j
    requires s.leases[i].phase.Live? && InDate(s.leases[j], s.now)
    requires InDate(s.leases[i], s.now) ==> s.leases[i].slot != s.leases[j].slot
    ensures
      var t := Apply(s, Beat(i)).value;
      !Clear(t.leases[i], t.leases[j], t.now) <==> Reaching(s.leases[i], s.leases[j].job, s.leases[j].slot)
  {
    BackedAt(s, i);
    BackedAt(s, j);
  }

  /** A release takes another in-date holder's row exactly when it is of the other's job and slot. */
  lemma ReleaseTakesIff(s: State, i: nat, j: nat)
    requires AllBacked(s) && i < |s.leases| && j < |s.leases| && i != j
    requires s.leases[i].phase.Closing? && InDate(s.leases[j], s.now)
    ensures
      var t := Apply(s, Release(i)).value;
      !Backed(t, t.leases[j]) <==> Reaching(s.leases[i], s.leases[j].job, s.leases[j].slot)
  {
    BackedAt(s, j);
  }

  /** However a run goes on, as long as no take clashes, every in-date holder keeps a slot to itself. */
  ghost predicate StaysSound(s: State) {
    forall more :: Run(s, more).Some? && Calm(s, more) ==> Sound(Run(s, more).value)
  }

  lemma RunOne(s: State, a: Action)
    requires !a.Take?
    ensures Run(s, [a]) == Apply(s, a) && Calm(s, [a])
  {
    assert [a][..0] == [];
    assert Run(s, []) == Some(s);
  }

  lemma TakeKeepsBacked(s: State, a: Action, t: State)
    requires AllBacked(s) && a.Take? && Apply(s, a) == Some(t)
    ensures AllBacked(t)
  {
    hide Taken, Chosen, Backed;
    forall k | 0 <= k < |t.leases| ensures Backed(t, t.leases[k]) {
      TakeBacked(s, a, k);
    }
  }

  lemma TakenLease(s: State, a: Action, t: State)
    requires a.Take? && Apply(s, a) == Some(t) && Chosen(s.rows, a.slots, s.now, a.locked).Some?
    ensures t.leases == s.leases + [Lease(Chosen(s.rows, a.slots, s.now, a.locked).value, a.job, s.now, Live)]
    ensures t.now == s.now && InDate(t.leases[|s.leases|], t.now)
  {
    hide Taken, Chosen;
  }

  lemma ClashDoesHarm(s: State, a: Action, t: State, i: nat)
    requires Inv(s) && a.Take? && Apply(s, a) == Some(t) && i < |s.leases|
    requires Chosen(s.rows, a.slots, s.now, a.locked).Some?
    requires Reaching(s.leases[i], a.job, Chosen(s.rows, a.slots, s.now, a.locked).value)
    ensures !StaysSound(t)
  {
    hide Apply, Chosen, Run, Calm, AllBacked, AllApart, InDate, Sound;
    TakeKeepsBacked(s, a, t);
    TakenLease(s, a, t);
    var act := if t.leases[i].phase.Live? then Beat(i) else Release(i);
    RunOne(t, act);
    if act.Beat? {
      BeatAfterClash(t, i, |s.leases|);
    } else {
      ReleaseAfterClash(t, i, |s.leases|);
    }
    assert !Sound(Run(t, [act]).value);
  }

  lemma ReleaseAfterClash(t: State, i: nat, j: nat)
    requires AllBacked(t) && i < |t.leases| && j < |t.leases| && i != j
    requires t.leases[i].phase.Closing? && InDate(t.leases[j], t.now)
    requires Reaching(t.leases[i], t.leases[j].job, t.leases[j].slot)
    ensures Apply(t, Release(i)).Some? && !Sound(Apply(t, Release(i)).value)
  {
    ReleaseTakesIff(t, i, j);
    var u := Apply(t, Release(i)).value;
    assert !Backed(u, u.leases[j]);
  }

  lemma BeatAfterClash(t: State, i: nat, j: nat)
    requires AllBacked(t) && i < |t.leases| && j < |t.leases| && i != j
    requires t.leases[i].phase.Live? && InDate(t.leases[j], t.now)
    requires Reaching(t.leases[i], t.leases[j].job, t.leases[j].slot)
    ensures Apply(t, Beat(i)).Some? && !Sound(Apply(t, Beat(i)).value)
  {
    BackedAt(t, j);
    var u := Apply(t, Beat(i)).value;
    assert !Clear(u.leases[i], u.leases[j], u.now);
  }

  /**
    From a state whose invariant holds, a take is safe, whatever follows without a clash, exactly when it does
    not give the job a slot that another lease of the job may still renew or release.
   */
  lemma TakeIsSafeIff(s: State, a: Action, t: State)
    requires Inv(s) && a.Take? && Apply(s, a) == Some(t)
    ensures StaysSound(t) <==> !Clashes(s, a)
  {
    hide Apply, Run, Calm, Inv, Sound, Chosen;
    if Clashes(s, a) {
      var i :| 0 <= i < |s.leases| && Reaching(s.leases[i], a.job, Chosen(s.rows, a.slots, s.now, a.locked).value);
      ClashDoesHarm(s, a, t, i);
    } else {
      StepKeepsInv(s, a, t);
      forall more | Run(t, more).Some? && Calm(t, more) ensures Sound(Run(t, more).value) {
        CalmRunsKeepInv(t, more);
        InvIsSound(Run(t, more).value);
      }
    }
  }

  // ---- How many hold ----

  function Holders(s: State, n: int): set<int> {
    set i | 0 <= i < |s.leases| && InDate(s.leases[i], s.now) && s.leases[i].slot <= n
  }

  /** Indices that map to different numbers between 1 and n are at most n. */
  lemma {:induction false} AtMost(indices: set<int>, n: nat, slotOf: map<int, int>)
    requires forall i :: i in indices ==> i in slotOf && 1 <= slotOf[i] <= n
    requires forall i, j :: i in indices && j in indices && i != j ==> slotOf[i] != slotOf[j]
    ensures |indices| <= n
    decreases n
  {
    if n == 0 {
      assert forall i :: i !in indices;
      assert indices == {};
    } else {
      if top :| top in indices && slotOf[top] == n {
        AtMost(indices - {top}, n - 1, slotOf);
        assert indices == indices - {top} + {top};
      } else {
        AtMost(indices, n - 1, slotOf);
      }
    }
  }

  lemma {:induction false} LeasesFromOne(now: int, actions: seq<Action>)
    requires Run(Init(now), actions).Some?
    ensures
      var s := Run(Init(now), actions).value;
      FromOne(s.rows) && forall i :: 0 <= i < |s.leases| ==> s.leases[i].slot >= 1
    decreases |actions|
  {
    if actions != [] {
      hide Apply;
      LeasesFromOne(now, actions[..|actions| - 1]);
      StepFromOne(Run(Init(now), actions[..|actions| - 1]).value, actions[|actions| - 1]);
    }
  }

  lemma StepFromOne(s: State, a: Action)
    requires Apply(s, a).Some? && FromOne(s.rows) && forall i :: 0 <= i < |s.leases| ==> s.leases[i].slot >= 1
    ensures
      var t := Apply(s, a).value;
      FromOne(t.rows) && forall i :: 0 <= i < |t.leases| ==> t.leases[i].slot >= 1
  {
    if a.Take? {
      LowestFreeIsLowest(Ensured(s.rows, a.slots), 1, a.slots, s.now, a.locked);
    }
  }

  /** The in-date holders of the first n slots are at most n, however the limit moved meanwhile. */
  lemma HoldersFitTheSlots(now: int, actions: seq<Action>, n: nat)
    requires Run(Init(now), actions).Some? && Calm(Init(now), actions)
    ensures |Holders(Run(Init(now), actions).value, n)| <= n
  {
    var s := Run(Init(now), actions).value;
    var holders := Holders(s, n);
    var slotOf := map i | i in holders :: s.leases[i].slot;
    LeasesFromOne(now, actions);
    forall i, j | i in holders && j in holders && i != j ensures slotOf[i] != slotOf[j] {
      InDateHoldersNeverShare(now, actions, i, j);
    }
    AtMost(holders, n, slotOf);
  }

  predicate OffersAtMost(actions: seq<Action>, n: int) {
    forall a :: a in actions && a.Take? ==> a.slots <= n
  }

  predicate AllUpTo(leases: seq<Lease>, n: int) {
    forall i :: 0 <= i < |leases| ==> leases[i].slot <= n
  }

  lemma StepOffers(s: State, a: Action, n: int)
    requires Apply(s, a).Some? && AllUpTo(s.leases, n) && (a.Take? ==> a.slots <= n)
    ensures AllUpTo(Apply(s, a).value.leases, n)
  {
    hide LowestFree, Ensured, Taken;
    if a.Take? {
      LowestFreeIsLowest(Ensured(s.rows, a.slots), 1, a.slots, s.now, a.locked);
    }
  }

  lemma {:induction false} SlotsAreOffered(now: int, actions: seq<Action>, n: int)
    requires Run(Init(now), actions).Some? && OffersAtMost(actions, n)
    ensures AllUpTo(Run(Init(now), actions).value.leases, n)
    decreases |actions|
  {
    if actions != [] {
      var before, a := actions[..|actions| - 1], actions[|actions| - 1];
      assert a in actions && forall b :: b in before ==> b in actions;
      hide Apply, AllUpTo;
      SlotsAreOffered(now, before, n);
      StepOffers(Run(Init(now), before).value, a, n);
    } else {
      assert Init(now).leases == [];
    }
  }

  /** In-date holders never exceed the slots offered. */
  lemma HoldersNeverExceedTheOffer(now: int, actions: seq<Action>, n: nat)
    requires Run(Init(now), actions).Some? && Calm(Init(now), actions) && OffersAtMost(actions, n)
    ensures
      var s := Run(Init(now), actions).value;
      |set i | 0 <= i < |s.leases| && InDate(s.leases[i], s.now)| <= n
  {
    var s := Run(Init(now), actions).value;
    SlotsAreOffered(now, actions, n);
    HoldersFitTheSlots(now, actions, n);
    assert (set i | 0 <= i < |s.leases| && InDate(s.leases[i], s.now)) == Holders(s, n);
  }

  /** The only slot, new or available, is taken. */
  lemma TakesTheOnlySlot(s: State, job: int)
    requires s.rows.Keys <= {1} && (1 in s.rows ==> Available(s.rows[1], s.now))
    ensures Apply(s, Take(1, job, {})) ==
            Some(State(map[1 := Held(job, s.now + EXPIRY)], s.leases + [Lease(1, job, s.now, Live)], s.now))
  {
    var ensured := Ensured(s.rows, 1);
    assert ensured.Keys == {1};
    assert LowestFree(ensured, 1, 1, s.now, {}) == Some(1);
    assert ensured[1 := Held(job, s.now + EXPIRY)] == map[1 := Held(job, s.now + EXPIRY)];
  }

  predicate SharesASlot(s: State) {
    |s.leases| == 2 && s.leases[0].slot == s.leases[1].slot && InDate(s.leases[0], s.now) && InDate(s.leases[1], s.now)
  }

  /** Two leases for one job can come to share a slot: a late heartbeat of the first renews the second's row. */
  lemma OneJobCanHoldASlotTwice()
    ensures exists actions :: Run(Init(0), actions).Some? && SharesASlot(Run(Init(0), actions).value)
  {
    var late := EXPIRY + 1;
    var one := State(map[1 := Held(7, EXPIRY)], [Lease(1, 7, 0, Live)], 0);
    var two := one.(now := late);
    var three := State(map[1 := Held(7, late + EXPIRY)], [Lease(1, 7, 0, Live), Lease(1, 7, late, Live)], late);
    var four := three.(leases := [Lease(1, 7, late, Live), Lease(1, 7, late, Live)]);
    var a, b, c, d := Take(1, 7, {}), Tick(late), Take(1, 7, {}), Beat(0);
    TakesTheOnlySlot(Init(0), 7);
    TakesTheOnlySlot(two, 7);
    assert Apply(three, d) == Some(four) by {
      assert three.rows[1 := Held(7, late + EXPIRY)] == three.rows;
      assert three.leases[0 := Lease(1, 7, late, Live)] == four.leases;
    }
    assert Run(Init(0), []) == Some(Init(0));
    RunSnoc(Init(0), [], a);
    RunSnoc(Init(0), [] + [a], b);
    RunSnoc(Init(0), [] + [a] + [b], c);
    RunSnoc(Init(0), [] + [a] + [b] + [c], d);
    assert SharesASlot(Run(Init(0), [] + [a] + [b] + [c] + [d]).value);
  }

  // ---- The table in place ----

  predicate OfLease(a: Action, i: nat) {
    (a.Beat? || a.Close? || a.Release? || a.Die?) && a.lease == i
  }

  predicate Mine(a: Action, own: Option<nat>) {
    own.Some? && OfLease(a, own.value)
  }

  /** What was done of lease `own`, in order. */
  function OwnActs(actions: seq<Action>, own: Option<nat>): seq<Action> {
    if actions == [] then []
    else
      var last := actions[|actions| - 1];
      OwnActs(actions[..|actions| - 1], own) + if Mine(last, own) then [last] else []
  }

  /** A calm run in which exactly `acted` was done of lease `own`. */
  ghost predicate ReachesBy(s: State, t: State, own: Option<nat>, acted: seq<Action>) {
    exists actions :: Run(s, actions) == Some(t) && Calm(s, actions) && OwnActs(actions, own) == acted
  }

  lemma OwnActsSnoc(actions: seq<Action>, a: Action, own: Option<nat>)
    ensures OwnActs(actions + [a], own) == OwnActs(actions, own) + if Mine(a, own) then [a] else []
  {
    assert (actions + [a])[..|actions|] == actions;
  }

  lemma {:induction false} NoneActs(actions: seq<Action>)
    ensures OwnActs(actions, None) == []
    decreases |actions|
  {
    if actions != [] {
      NoneActs(actions[..|actions| - 1]);
    }
  }

  lemma ReachesByNone(s: State, t: State)
    ensures Reaches(s, t) <==> ReachesBy(s, t, None, [])
  {
    hide Run, Calm, OwnActs;
    forall actions ensures OwnActs(actions, None) == [] {
      NoneActs(actions);
    }
  }

  lemma ReachesBySelf(s: State, own: Option<nat>)
    ensures ReachesBy(s, s, own, [])
  {
    assert Run(s, []) == Some(s) && Calm(s, []) && OwnActs([], own) == [];
  }

  lemma ReachesByNext(start: State, s: State, a: Action, t: State, own: Option<nat>, acted: seq<Action>)
    requires ReachesBy(start, s, own, acted) && Apply(s, a) == Some(t) && !Clashes(s, a)
    ensures ReachesBy(start, t, own, acted + if Mine(a, own) then [a] else [])
  {
    hide Apply, Clashes, Run, Calm, OwnActs, Mine;
    var actions :| Run(start, actions) == Some(s) && Calm(start, actions) && OwnActs(actions, own) == acted;
    RunSnoc(start, actions, a);
    OwnActsSnoc(actions, a, own);
    assert Run(start, actions + [a]) == Some(t);
  }

  lemma {:induction false} RunOn(s: State, a: seq<Action>, b: seq<Action>)
    requires Run(s, a).Some?
    ensures Run(s, a + b) == Run(Run(s, a).value, b)
    ensures Calm(s, a + b) <==> Calm(s, a) && Calm(Run(s, a).value, b)
    decreases |b|
  {
    hide Apply, Clashes;
    if b == [] {
      assert a + b == a;
    } else {
      assert (a + b)[..|a + b| - 1] == a + b[..|b| - 1];
      RunOn(s, a, b[..|b| - 1]);
    }
  }

  lemma ReachesOn(start: State, s: State, t: State, own: Option<nat>, acted: seq<Action>)
    requires Reaches(start, s) && ReachesBy(s, t, own, acted)
    ensures Reaches(start, t)
  {
    hide Run, Calm, OwnActs;
    var a :| Run(start, a) == Some(s) && Calm(start, a);
    var b :| Run(s, b) == Some(t) && Calm(s, b) && OwnActs(b, own) == acted;
    RunOn(start, a, b);
    assert Run(start, a + b) == Some(t);
  }

  /** A heartbeat a tick, then Release's two parts. */
  function HeldThenReleased(i: nat, beats: nat, written: bool): (acts: seq<Action>)
    ensures |acts| == beats + 2 && forall k :: 0 <= k < beats ==> acts[k] == Beat(i)
    ensures acts[beats] == Close(i) && acts[beats + 1] == if written then Release(i) else Die(i)
  {
    Beats(i, beats) + [Close(i)] + [if written then Release(i) else Die(i)]
  }

  function Beats(i: nat, n: nat): (acts: seq<Action>)
    ensures |acts| == n && forall k :: 0 <= k < n ==> acts[k] == Beat(i)
  {
    if n == 0 then [] else Beats(i, n - 1) + [Beat(i)]
  }

  /** An action that another job does: not on lease `own`, not a take for `job`, and without a clash. */
  predicate Others(s: State, a: Action, job: int, own: Option<nat>) {
    && !Mine(a, own)
    && (a.Take? ==> a.job != job && !Clashes(s, a))
  }

  lemma IdleTakesCalmly(s: State, a: Action)
    requires a.Take? && Idle(s, a.job)
    ensures !Clashes(s, a)
  {
  }

  lemma OthersKeepMine(s: State, a: Action, t: State, job: int, own: Option<nat>)
    requires Apply(s, a) == Some(t) && Others(s, a, job, own) && Only(s, job, own)
    requires own.Some? ==> own.value < |s.leases|
    ensures Only(t, job, own)
    ensures own.Some? ==> own.value < |t.leases| && t.leases[own.value] == s.leases[own.value]
  {
    hide Taken, Chosen, Renewed, Released, Clashes;
  }

  lemma OthersAreCalm(s: State, a: Action, job: int, own: Option<nat>)
    requires Others(s, a, job, own)
    ensures !Clashes(s, a) && !Mine(a, own)
  {
    hide Chosen;
  }

  lemma OwnActsCalmly(s: State, a: Action)
    requires !a.Take?
    ensures !Clashes(s, a)
  {
  }

  lemma IdleOnly(s: State, job: int)
    ensures Idle(s, job) <==> Only(s, job, None)
  {
  }

  lemma TakenOnly(s: State, a: Action, t: State)
    requires a.Take? && Apply(s, a) == Some(t) && Idle(s, a.job)
    ensures Only(t, a.job, if |t.leases| == |s.leases| then None else Some(|s.leases|))
  {
    hide Taken, Chosen;
  }

  function PhaseAfter(a: Action): Phase {
    match a
    case Close(_) => Closing
    case Release(_) => Gone
    case Die(_) => Dead
    case _ => Live
  }

  lemma OwnStepKeepsOnly(s: State, a: Action, t: State, job: int, i: nat)
    requires Apply(s, a) == Some(t) && Only(s, job, Some(i)) && OfLease(a, i)
    ensures Only(t, job, Some(i)) && i < |t.leases| && |t.leases| == |s.leases|
    ensures t.leases[i].job == s.leases[i].job && t.leases[i].slot == s.leases[i].slot
    ensures t.leases[i].phase == PhaseAfter(a)
    ensures a.Release? || a.Die? ==> Idle(t, job)
  {
    hide Renewed, Released, Owns;
  }

  lemma GivenBack(s: State, t: State, i: nat)
    requires Inv(s) && Apply(s, Release(i)) == Some(t) && InDate(s.leases[i], s.now)
    ensures s.leases[i].slot in t.rows && t.rows[s.leases[i].slot] == Free
  {
    BackedAt(s, i);
  }

  lemma EndKeepsTimes(s: State, a: Action, t: State, i: nat)
    requires (a == Release(i) || a == Die(i)) && Apply(s, a) == Some(t)
    ensures |t.leases| == |s.leases| && t.leases[i].renewedAt == s.leases[i].renewedAt && t.now == s.now
  {
    hide Released;
  }

  lemma ChosenIsPositive(rows: Rows, slots: int, now: int, locked: set<int>)
    ensures Chosen(rows, slots, now, locked).Some? ==> 1 <= Chosen(rows, slots, now, locked).value <= slots
  {
    LowestFreeIsLowest(Ensured(rows, slots), 1, slots, now, locked);
  }

  /** In this state a take finds no slot, or the slot it names. */
  predicate Finds(s: State, slots: int, locked: set<int>, slot: Option<int>) {
    Chosen(s.rows, slots, s.now, locked) == slot
  }

  /**
    The states that the tries met, one each: none but the last found a slot, and the last found `slot`, or none after
    all the tries there are.
   */
  ghost predicate Searched(met: seq<State>, slots: int, tries: nat, locked: nat -> set<int>, slot: Option<int>) {
    && |met| <= tries
    && (forall k :: 0 <= k < |met| - 1 ==> Finds(met[k], slots, locked(k), None))
    && (slot.None? ==> |met| == tries && (met != [] ==> Finds(met[|met| - 1], slots, locked(|met| - 1), None)))
    && (slot.Some? ==> met != [] && Finds(met[|met| - 1], slots, locked(|met| - 1), slot))
  }

  lemma SearchedOn(met: seq<State>, slots: int, tries: nat, locked: nat -> set<int>, s: State, slot: Option<int>)
    requires |met| < tries && forall k :: 0 <= k < |met| ==> Finds(met[k], slots, locked(k), None)
    requires Finds(s, slots, locked(|met|), slot)
    ensures slot.Some? ==> Searched(met + [s], slots, tries, locked, slot)
    ensures slot.None? ==> forall k :: 0 <= k < |met + [s]| ==> Finds((met + [s])[k], slots, locked(k), None)
  {
    hide Finds;
  }

  lemma SearchedInVain(met: seq<State>, slots: int, tries: nat, locked: nat -> set<int>)
    requires |met| == tries && forall k :: 0 <= k < |met| ==> Finds(met[k], slots, locked(k), None)
    ensures Searched(met, slots, tries, locked, None)
  {
    hide Finds;
  }

  /** Where the first try finds a slot it is the one that is had. */
  lemma FoundAtOnce(met: seq<State>, slots: int, tries: nat, locked: nat -> set<int>, slot: Option<int>, s: State)
    requires Searched(met, slots, tries, locked, slot) && tries > 0 && (met != [] ==> met[0] == s)
    ensures Chosen(s.rows, slots, s.now, locked(0)).Some? ==> slot == Chosen(s.rows, slots, s.now, locked(0))
  {
    hide Chosen;
    if |met| > 1 {
      assert Finds(met[0], slots, locked(0), None);
    }
  }

  /** The key's rows, and its leases as their holders know them; `now` is the database's clock. */
  class Slots {
    var rows: Rows
    var leases: seq<Lease>
    var now: int

    ghost function Abs(): State
      reads this
    {
      State(rows, leases, now)
    }

    constructor (now: int)
      ensures Abs() == Init(now) && Inv(Abs())
    {
      rows, leases, this.now := map[], [], now;
    }

    /** TakeLease: the slot claimed, 0 when every one is held or locked. */
    method TakeLease(slots: int, job: int, locked: set<int>) returns (slot: int)
      modifies this
      ensures Apply(old(Abs()), Take(slots, job, locked)) == Some(Abs())
      ensures slot == (match Chosen(old(rows), slots, now, locked) case None => 0 case Some(k) => k)
      ensures leases == (old(leases) + if slot == 0 then [] else [Lease(slot, job, now, Live)]) && now == old(now)
    {
      LowestFreeIsLowest(Ensured(rows, slots), 1, slots, now, locked);
      rows := Ensured(rows, slots);
      var free := LowestFree(rows, 1, slots, now, locked);
      if free.None? {
        return 0;
      }
      rows := rows[free.value := Held(job, now + EXPIRY)];
      leases := leases + [Lease(free.value, job, now, Live)];
      return free.value;
    }

    /** One tick of a lease's heartbeat: the row is renewed where it is still the job's. */
    method Heartbeat(i: nat)
      requires i < |leases| && leases[i].phase.Live?
      modifies this
      ensures Apply(old(Abs()), Beat(i)) == Some(Abs())
    {
      var l := leases[i];
      if l.slot in rows && rows[l.slot].Held? && rows[l.slot].job == l.job {
        rows := rows[l.slot := Held(l.job, now + EXPIRY)];
        leases := leases[i := l.(renewedAt := now)];
      }
    }

    /** What Release does first: the heartbeats stop. */
    method StopBeating(i: nat)
      requires i < |leases| && leases[i].phase.Live?
      modifies `leases
      ensures Apply(old(Abs()), Close(i)) == Some(Abs())
    {
      leases := leases[i := leases[i].(phase := Closing)];
    }

    /** Its UPDATE, which may fail. */
    method FreeRow(i: nat, written: bool)
      requires i < |leases| && leases[i].phase.Closing?
      modifies this
      ensures Apply(old(Abs()), if written then Release(i) else Die(i)) == Some(Abs())
    {
      var l := leases[i];
      if !written {
        leases := leases[i := l.(phase := Dead)];
        return;
      }
      if l.slot in rows && rows[l.slot].Held? && rows[l.slot].job == l.job {
        rows := rows[l.slot := Free];
      }
      leases := leases[i := l.(phase := Gone)];
    }

    /** What else happens meanwhile: time, and the other jobs, each step of which is calm. */
    method Meanwhile(actions: seq<Action>, job: int, own: Option<nat>, ghost start: State, ghost acted: seq<Action>)
      requires ReachesBy(start, Abs(), own, acted) && Only(Abs(), job, own) && (own.Some? ==> own.value < |leases|)
      modifies this
      ensures ReachesBy(start, Abs(), own, acted) && Only(Abs(), job, own)
      ensures own.Some? ==> own.value < |leases| && leases[own.value] == old(leases[own.value])
    {
      hide Apply, Others, Only, Clashes, ReachesBy, Mine;
      for k := 0 to |actions|
        invariant ReachesBy(start, Abs(), own, acted) && Only(Abs(), job, own)
        invariant own.Some? ==> own.value < |leases| && leases[own.value] == old(leases[own.value])
      {
        var s := State(rows, leases, now);
        var next := Apply(s, actions[k]);
        if next.Some? && Others(s, actions[k], job, own) {
          OthersAreCalm(s, actions[k], job, own);
          OthersKeepMine(s, actions[k], next.value, job, own);
          ReachesByNext(start, s, actions[k], next.value, own, acted);
          assert acted + [] == acted;
          rows, leases, now := next.value.rows, next.value.leases, next.value.now;
        }
      }
    }

    /** One try for a slot by a job with no lease that may still act. */
    method Try(slots: int, job: int, locked: set<int>, ghost start: State) returns (own: Option<nat>)
      requires Reaches(start, Abs()) && Idle(Abs(), job)
      modifies this
      ensures Apply(old(Abs()), Take(slots, job, locked)) == Some(Abs())
      ensures Reaches(start, Abs()) && Only(Abs(), job, own)
      ensures own.Some? ==> own.value < |leases| && leases[own.value].phase.Live? && leases[own.value].job == job
      ensures Finds(old(Abs()), slots, locked, if own.Some? then Some(leases[own.value].slot) else None)
    {
      hide Apply, Clashes, Reaches, Only, Chosen;
      ghost var s, a := Abs(), Take(slots, job, locked);
      ChosenIsPositive(rows, slots, now, locked);
      var slot := TakeLease(slots, job, locked);
      IdleTakesCalmly(s, a);
      ReachesNext(start, s, a, Abs());
      TakenOnly(s, a, Abs());
      own := if slot == 0 then None else Some(|leases| - 1);
    }

    /** AcquireLease: tries until a slot is free or, after `tries` of them, its context ends; `met` is what they met. */
    method AcquireLease(slots: int, job: int, tries: nat, locked: nat -> set<int>, waits: nat -> seq<Action>,
                        ghost start: State) returns (own: Option<nat>, ghost met: seq<State>)
      requires Reaches(start, Abs()) && Idle(Abs(), job)
      modifies this
      ensures Reaches(start, Abs()) && Only(Abs(), job, own)
      ensures own.Some? ==> own.value < |leases| && leases[own.value].phase.Live? && leases[own.value].job == job
      ensures Searched(met, slots, tries, locked, if own.Some? then Some(leases[own.value].slot) else None)
      ensures met != [] ==> met[0] == old(Abs())
      ensures
        var first := Chosen(old(rows), slots, old(now), locked(0));
        tries > 0 && first.Some? ==> own.Some? && leases[own.value].slot == first.value
    {
      hide Apply, Clashes, Reaches, ReachesBy, Only, Idle, Chosen, Finds, Searched;
      IdleOnly(Abs(), job);
      own, met := None, [];
      var try := 0;
      while try < tries && own.None?
        invariant Reaches(start, Abs()) && Only(Abs(), job, own)
        invariant own.Some? ==> own.value < |leases| && leases[own.value].phase.Live? && leases[own.value].job == job
        invariant own.None? ==> try == |met| <= tries && forall k :: 0 <= k < |met| ==> Finds(met[k], slots, locked(k), None)
        invariant own.Some? ==> Searched(met, slots, tries, locked, Some(leases[own.value].slot))
        invariant if met == [] then Abs() == old(Abs()) else met[0] == old(Abs())
        decreases tries - try
      {
        IdleOnly(Abs(), job);
        ghost var s := Abs();
        own := Try(slots, job, locked(try), start);
        SearchedOn(met, slots, tries, locked, s, if own.Some? then Some(leases[own.value].slot) else None);
        met := met + [s];
        if own.None? {
          ReachesByNone(start, Abs());
          Meanwhile(waits(try), job, None, start, []);
          ReachesByNone(start, Abs());
        }
        try := try + 1;
      }
      if own.None? {
        SearchedInVain(met, slots, tries, locked);
      }
      if tries > 0 {
        FoundAtOnce(met, slots, tries, locked, if own.Some? then Some(leases[own.value].slot) else None, old(Abs()));
      }
    }

    /** One of the lease's own actions, done in place. */
    method Act(a: Action, i: nat, job: int, ghost start: State, ghost acted: seq<Action>)
      requires OfLease(a, i) && i < |leases| && ReachesBy(start, Abs(), Some(i), acted) && Only(Abs(), job, Some(i))
      requires if a.Beat? || a.Close? then leases[i].phase.Live? else leases[i].phase.Closing?
      modifies this
      ensures Apply(old(Abs()), a) == Some(Abs())
      ensures ReachesBy(start, Abs(), Some(i), acted + [a]) && Only(Abs(), job, Some(i))
      ensures |leases| == |old(leases)| && leases[i].job == old(leases[i].job) && leases[i].slot == old(leases[i].slot)
      ensures leases[i].phase == PhaseAfter(a)
      ensures a.Release? || a.Die? ==> Idle(Abs(), job)
    {
      hide Apply, Clashes, ReachesBy, Only;
      ghost var s := Abs();
      match a {
        case Beat(_) => Heartbeat(i);
        case Close(_) => StopBeating(i);
        case Release(_) => FreeRow(i, true);
        case Die(_) => FreeRow(i, false);
      }
      OwnActsCalmly(s, a);
      ReachesByNext(start, s, a, Abs(), Some(i), acted);
      OwnStepKeepsOnly(s, a, Abs(), job, i);
    }

    /**
      withLease: a slot is acquired, `fn` runs while the lease beats, and Release gives the row back. Whatever
      the other jobs do between, the run is calm, what is done of the lease is one heartbeat a tick and then
      Release's two parts, the job ends with nothing that may act, and a holder whose last renewal is in date when
      it releases gives back its own row. `taken` is the state the slot was taken in.
     */
    method WithLease(slots: int, job: int, tries: nat, locked: nat -> set<int>, waits: nat -> seq<Action>,
                     beats: seq<seq<Action>>, closing: seq<Action>, written: bool)
      returns (own: Option<nat>, late: bool, ghost taken: State, ghost met: seq<State>)
      requires Inv(Abs()) && Idle(Abs(), job)
      modifies this
      ensures Reaches(old(Abs()), taken) && Reaches(old(Abs()), Abs()) && Inv(Abs()) && Idle(Abs(), job)
      ensures own.None? ==> Abs() == taken
      ensures own.Some? ==> own.value < |taken.leases|
      ensures Searched(met, slots, tries, locked, if own.Some? then Some(taken.leases[own.value].slot) else None)
      ensures
        var first := Chosen(old(rows), slots, old(now), locked(0));
        tries > 0 && first.Some? ==> own.Some? && taken.leases[own.value].slot == first.value
      ensures own.Some? ==>
                && own.value < |taken.leases| && taken.leases[own.value].job == job && Acts(taken.leases[own.value])
                && ReachesBy(taken, Abs(), own, HeldThenReleased(own.value, |beats|, written))
      ensures own.Some? ==> own.value < |leases| && leases[own.value].phase == if written then Gone else Dead
      ensures own.Some? && written && !late ==> leases[own.value].slot in rows && rows[leases[own.value].slot] == Free
      ensures own.Some? && !late ==> leases[own.value].renewedAt + EXPIRY >= now
    {
      hide Apply, Clashes, Reaches, ReachesBy, Only, Inv, Run, Calm, Searched, Chosen;
      ghost var start := Abs();
      ReachesSelf(start);
      own, met := AcquireLease(slots, job, tries, locked, waits, start);
      taken := Abs();
      late := false;
      if own.Some? {
        var i := own.value;
        ReachesBySelf(taken, own);
        for k := 0 to |beats|
          invariant ReachesBy(taken, Abs(), own, Beats(i, k)) && Only(Abs(), job, own)
          invariant i < |leases| && leases[i].phase.Live? && leases[i].job == job
        {
          Meanwhile(beats[k], job, own, taken, Beats(i, k));
          Act(Beat(i), i, job, taken, Beats(i, k));
        }
        Act(Close(i), i, job, taken, Beats(i, |beats|));
        Meanwhile(closing, job, own, taken, Beats(i, |beats|) + [Close(i)]);
        late := !InDate(leases[i], now);
        ghost var s := Abs();
        ReachesOn(start, taken, s, own, Beats(i, |beats|) + [Close(i)]);
        ReachedInv(start, s);
        Act(if written then Release(i) else Die(i), i, job, taken, Beats(i, |beats|) + [Close(i)]);
        if written && !late {
          GivenBack(s, Abs(), i);
        }
        assert leases[i].renewedAt == s.leases[i].renewedAt && now == s.now by {
          EndKeepsTimes(s, if written then Release(i) else Die(i), Abs(), i);
        }
        ReachesOn(start, taken, Abs(), own, HeldThenReleased(i, |beats|, written));
      }
      ReachedInv(start, Abs());
    }
  }

  // ---- Backoff ----

  function Doubled(base: nat, n: int): nat
    decreases if n < 0 then 0 else n
  {
    if n <= 0 then base else 2 * Doubled(base, n - 1)
  }

  lemma {:induction false} DoublingGrows(base: nat, i: int, n: int)
    requires 0 <= i <= n
    ensures Doubled(base, i) <= Doubled(base, n)
    decreases n - i
  {
    if i < n {
      DoublingGrows(base, i, n - 1);
    }
  }

  /** Doubling a times and then b times is doubling as often as both; none is none, and once is twice as much. */
  lemma {:induction false} DoublingAdds(base: nat, a: nat, b: nat)
    ensures Doubled(base, 0) == base && Doubled(base, 1) == base + base
    ensures Doubled(base, a + b) == Doubled(Doubled(base, a), b)
    decreases b
  {
    if b > 0 {
      DoublingAdds(base, a, b - 1);
    }
  }

  /**
    Backoff: base doubled n times and capped, of which the upper half is drawn from; `random` is rand.N's.
    What is doubled is below the limit, so that it stays below twice the limit.
   */
  method Backoff(n: int, base: nat, limit: nat, random: nat) returns (wait: nat)
    requires random <= Min(Doubled(base, n), limit) / 2
    ensures
      var d := Min(Doubled(base, n), limit);
      wait == d / 2 + random && d / 2 <= wait <= d
  {
    var d := base;
    var i := 0;
    while i < n && d < limit
      invariant 0 <= i && (i <= n || i == 0)
      invariant d == Doubled(base, i) && d <= (if base <= 2 * limit then 2 * limit else base)
    {
      d := d * 2;
      i := i + 1;
    }
    if 0 <= i <= n {
      DoublingGrows(base, i, n);
    }
    d := Min(d, limit);
    wait := d / 2 + random;
  }
}
