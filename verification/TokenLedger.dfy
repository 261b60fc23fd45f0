/**
  The gateway's token ledger (internal/store/gateway.go, internal/gateway/gateway.go): a run's row counts what
  it has spent; each model step reserves an estimate before it runs and settles it afterwards. Every statement
  is one atomic action, and the steps of one run interleave freely.
 */
module TokenLedger {
  import opened Prelude

  const MAX_BODY := 16 * 1024 * 1024
  const MAX_STEP_OUTPUT := 16384

  // ---- The row ----

  datatype Row = Row(budget: int, spent: int, expires: int)

  /** Where a reservation stands: a lost one's charge was never written. */
  datatype Phase = InFlight | Settled(actual: int) | Refunded | Lost

  datatype Call = Call(reserved: nat, phase: Phase)

  /** The run's row, None once revoked, and every reservation made on it. */
  datatype State = State(row: Option<Row>, calls: seq<Call>, now: int)

  datatype Action =
    | Tick(seconds: nat)
    | Reserve(tokens: nat)
    | Settle(call: nat, actual: int)
    | Refund(call: nat)
    | Lose(call: nat)
    | Revoke

  function Init(budget: int, expires: int, now: int): State {
    State(Some(Row(budget, 0, expires)), [], now)
  }

  /** The guard of the reserving UPDATE. */
  predicate Grants(row: Option<Row>, now: int) {
    row.Some? && row.value.expires > now && row.value.spent < row.value.budget
  }

  /** spent_tokens + tokens, where the row exists. */
  function Charged(row: Option<Row>, tokens: int): Option<Row> {
    match row
    case None => None
    case Some(r) => Some(r.(spent := r.spent + tokens))
  }

  predicate Flying(s: State, i: nat) {
    i < |s.calls| && s.calls[i].phase.InFlight?
  }

  function Ended(s: State, i: nat, phase: Phase, tokens: int): State
    requires i < |s.calls|
  {
    s.(row := Charged(s.row, tokens), calls := s.calls[i := s.calls[i].(phase := phase)])
  }

  /** One action; None when it cannot happen in `s`. A refused reservation changes nothing. */
  function Apply(s: State, a: Action): Option<State> {
    match a
    case Tick(seconds) => Some(s.(now := s.now + seconds))
    case Reserve(tokens) =>
      if Grants(s.row, s.now)
      then Some(s.(row := Charged(s.row, tokens), calls := s.calls + [Call(tokens, InFlight)]))
      else Some(s)
    case Settle(i, actual) => if Flying(s, i) then Some(Ended(s, i, Settled(actual), actual - s.calls[i].reserved)) else None
    case Refund(i) => if Flying(s, i) then Some(Ended(s, i, Refunded, -(s.calls[i].reserved as int))) else None
    case Lose(i) => if Flying(s, i) then Some(Ended(s, i, Lost, 0)) else None
    case Revoke => Some(s.(row := None))
  }

  function Run(s: State, actions: seq<Action>): Option<State>
    decreases |actions|
  {
    if actions == [] then Some(s)
    else
      match Run(s, actions[..|actions| - 1])
      case None => None
      case Some(before) => Apply(before, actions[|actions| - 1])
  }

  ghost predicate Reaches(s: State, t: State) {
    exists actions :: Run(s, actions) == Some(t)
  }

  lemma ReachesSelf(s: State)
    ensures Reaches(s, s)
  {
    assert Run(s, []) == Some(s);
  }

  lemma ReachesNext(s: State, t: State, a: Action, next: State)
    requires Reaches(s, t) && Apply(t, a) == Some(next)
    ensures Reaches(s, next)
  {
    var actions :| Run(s, actions) == Some(t);
    assert (actions + [a])[..|actions|] == actions;
    assert Run(s, actions + [a]) == Some(next);
  }

  // ---- What the counter counts ----

  /** What a reservation adds to the counter: its actual spend once settled, nothing once refunded, the estimate otherwise. */
  function Owed(c: Call): int {
    match c.phase
    case Settled(actual) => actual
    case Refunded => 0
    case _ => c.reserved
  }

  function Sum(calls: seq<Call>): int {
    if calls == [] then 0 else Sum(calls[..|calls| - 1]) + Owed(calls[|calls| - 1])
  }

  function MaxReserved(calls: seq<Call>): nat {
    if calls == [] then 0
    else
      var before, last := MaxReserved(calls[..|calls| - 1]), calls[|calls| - 1].reserved;
      if last > before then last else before
  }

  /** How far a settled call went over its reservation. */
  function Over(c: Call): nat {
    if c.phase.Settled? && c.phase.actual > c.reserved then c.phase.actual - c.reserved else 0
  }

  function Excess(calls: seq<Call>): nat {
    if calls == [] then 0 else Excess(calls[..|calls| - 1]) + Over(calls[|calls| - 1])
  }

  lemma {:induction false} SumUpdate(calls: seq<Call>, i: nat, c: Call)
    requires i < |calls|
    ensures Sum(calls[i := c]) == Sum(calls) - Owed(calls[i]) + Owed(c)
    ensures Excess(calls[i := c]) == Excess(calls) - Over(calls[i]) + Over(c)
    ensures c.reserved == calls[i].reserved ==> MaxReserved(calls[i := c]) == MaxReserved(calls)
    decreases |calls|
  {
    hide Owed, Over;
    var last := |calls| - 1;
    if i < last {
      SumUpdate(calls[..last], i, c);
      assert calls[i := c][..last] == calls[..last][i := c];
    } else {
      assert calls[i := c][..last] == calls[..last];
    }
  }

  lemma SumSnoc(calls: seq<Call>, c: Call)
    ensures Sum(calls + [c]) == Sum(calls) + Owed(c) && Excess(calls + [c]) == Excess(calls) + Over(c)
    ensures MaxReserved(calls + [c]) == if c.reserved > MaxReserved(calls) then c.reserved else MaxReserved(calls)
  {
    assert (calls + [c])[..|calls|] == calls;
  }

  /** The most the row's counter can show. */
  function Bound(budget: int, calls: seq<Call>): int {
    if calls == [] then 0 else budget - 1 + MaxReserved(calls) + Excess(calls)
  }

  predicate Kept(s: State, budget: int) {
    s.row.Some? ==>
      && s.row.value.budget == budget
      && s.row.value.spent == Sum(s.calls)
      && s.row.value.spent <= Bound(budget, s.calls)
  }

  lemma EndedKept(s: State, i: nat, phase: Phase, tokens: int, budget: int)
    requires Kept(s, budget) && Flying(s, i)
    requires tokens == Owed(Call(s.calls[i].reserved, phase)) - s.calls[i].reserved
    requires tokens <= Over(Call(s.calls[i].reserved, phase))
    ensures Kept(Ended(s, i, phase, tokens), budget)
  {
    SumUpdate(s.calls, i, s.calls[i].(phase := phase));
    hide Sum, Excess, MaxReserved;
  }

  lemma StepKept(s: State, a: Action, budget: int)
    requires Kept(s, budget) && Apply(s, a).Some?
    ensures Kept(Apply(s, a).value, budget)
  {
    hide Sum, Excess, MaxReserved;
    match a {
      case Reserve(tokens) => SumSnoc(s.calls, Call(tokens, InFlight));
      case Settle(i, actual) => EndedKept(s, i, Settled(actual), actual - s.calls[i].reserved, budget);
      case Refund(i) => EndedKept(s, i, Refunded, -(s.calls[i].reserved as int), budget);
      case Lose(i) => EndedKept(s, i, Lost, 0, budget);
      case _ =>
    }
  }

  lemma {:induction false} RunKept(budget: int, expires: int, now: int, actions: seq<Action>)
    requires Run(Init(budget, expires, now), actions).Some?
    ensures Kept(Run(Init(budget, expires, now), actions).value, budget)
    decreases |actions|
  {
    if actions != [] {
      hide Kept, Apply;
      RunKept(budget, expires, now, actions[..|actions| - 1]);
      StepKept(Run(Init(budget, expires, now), actions[..|actions| - 1]).value, actions[|actions| - 1], budget);
    }
  }

  /**
    In every interleaving, while the row lives: it shows what settled steps spent plus what outstanding
    reservations estimate, a refunded step leaving nothing.
   */
  lemma SpentIsAccounted(budget: int, expires: int, now: int, actions: seq<Action>)
    requires Run(Init(budget, expires, now), actions).Some?
    ensures
      var s := Run(Init(budget, expires, now), actions).value;
      s.row.Some? ==> s.row.value.spent == Sum(s.calls)
  {
    RunKept(budget, expires, now, actions);
  }

  predicate WithinReservations(calls: seq<Call>) {
    forall c :: c in calls && c.phase.Settled? ==> c.phase.actual <= c.reserved
  }

  lemma {:induction false} NoExcess(calls: seq<Call>)
    requires WithinReservations(calls)
    ensures Excess(calls) == 0
    decreases |calls|
  {
    if calls != [] {
      var last := |calls| - 1;
      assert calls[last] in calls && forall c :: c in calls[..last] ==> c in calls;
      NoExcess(calls[..last]);
    }
  }

  /**
    Once anything was reserved, the counter never passes the budget less one by more than the largest single
    reservation and what settled steps spent beyond theirs; by the reservation alone when none did.
   */
  lemma SpendIsBounded(budget: int, expires: int, now: int, actions: seq<Action>)
    requires Run(Init(budget, expires, now), actions).Some?
    ensures
      var s := Run(Init(budget, expires, now), actions).value;
      s.row.Some? ==>
        && s.row.value.spent <= Bound(budget, s.calls)
        && (WithinReservations(s.calls) && s.calls != [] ==> s.row.value.spent <= budget - 1 + MaxReserved(s.calls))
  {
    RunKept(budget, expires, now, actions);
    var s := Run(Init(budget, expires, now), actions).value;
    if WithinReservations(s.calls) {
      NoExcess(s.calls);
    }
  }

  predicate AtBound(s: State, budget: int, reserved: nat) {
    s.row.Some? && s.row.value.spent == Bound(budget, s.calls) && MaxReserved(s.calls) == reserved
  }

  /** The bound is reached: a step reserves while one token of the budget is left. */
  lemma BoundIsReached(budget: int, reserved: nat, expires: int, now: int)
    requires 1 <= budget <= reserved && now < expires
    ensures exists actions :: Run(Init(budget, expires, now), actions).Some? &&
              AtBound(Run(Init(budget, expires, now), actions).value, budget, reserved)
  {
    hide Run;
    var s0 := Init(budget, expires, now);
    var a, b := Reserve(budget - 1), Reserve(reserved);
    var one := [Call(budget - 1, InFlight)];
    var s1 := State(Some(Row(budget, budget - 1, expires)), one, now);
    var s2 := State(Some(Row(budget, budget - 1 + reserved, expires)), one + [Call(reserved, InFlight)], now);
    assert [] + one == one;
    assert Apply(s0, a) == Some(s1) && Apply(s1, b) == Some(s2);
    hide Apply;
    RunsTwo(s0, a, s1, b, s2);
    SumSnoc([], Call(budget - 1, InFlight));
    SumSnoc(one, Call(reserved, InFlight));
    assert AtBound(s2, budget, reserved);
  }

  lemma RunsTwo(s: State, a: Action, t: State, b: Action, u: State)
    requires Apply(s, a) == Some(t) && Apply(t, b) == Some(u)
    ensures exists actions :: Run(s, actions) == Some(u)
  {
    hide Apply;
    assert Run(s, []) == Some(s);
    RunSnoc(s, [], a);
    RunSnoc(s, [] + [a], b);
  }

  lemma RunSnoc(s: State, actions: seq<Action>, a: Action)
    requires Run(s, actions).Some?
    ensures Run(s, actions + [a]) == Apply(Run(s, actions).value, a)
  {
    assert (actions + [a])[..|actions|] == actions;
  }

  // ---- One step's attempts ----

  datatype Reply = Answer(prompt: int, output: int) | Failure(transient: bool)

  /** One attempt: what the provider answered, whether the request's context still lived, and whether the wait ran out. */
  datatype Try = Try(reply: Reply, alive: bool, waited: bool)

  /** Whether the loop ends with this attempt. */
  predicate Last(t: Try, attempt: nat, retries: int) {
    t.reply.Answer? || attempt >= retries || !t.alive || !t.reply.transient || !t.waited
  }

  /** How many attempts a step may make. */
  function Tries(retries: int): nat {
    if retries < 0 then 1 else retries + 1
  }

  /** The attempt that ends the loop, from `attempt` on. */
  function LastTry(tries: nat -> Try, attempt: nat, retries: int): nat
    decreases if attempt < retries then retries - attempt else 0
  {
    if Last(tries(attempt), attempt, retries) then attempt else LastTry(tries, attempt + 1, retries)
  }

  /** It is the first that ends it, within the retries, and every one before it failed in a way another may not. */
  lemma {:induction false} LastTryIsFirst(tries: nat -> Try, attempt: nat, retries: int)
    requires attempt < Tries(retries)
    ensures
      var last := LastTry(tries, attempt, retries);
      && attempt <= last < Tries(retries) && Last(tries(last), last, retries)
      && forall i :: attempt <= i < last ==> !Last(tries(i), i, retries) && tries(i).reply == Failure(true)
    decreases if attempt < retries then retries - attempt else 0
  {
    if !Last(tries(attempt), attempt, retries) {
      LastTryIsFirst(tries, attempt + 1, retries);
    }
  }

  /**
    step: it stops at the first answer, at a failure another attempt would not change, when the context or
    a wait ends, and after its retries.
   */
  method Step(tries: nat -> Try, retries: int) returns (reply: Reply, attempts: nat)
    ensures attempts == LastTry(tries, 0, retries) + 1 <= Tries(retries)
    ensures reply == tries(attempts - 1).reply
  {
    LastTryIsFirst(tries, 0, retries);
    var attempt := 0;
    while true
      invariant LastTry(tries, 0, retries) == LastTry(tries, attempt, retries)
      decreases if attempt < retries then retries - attempt else 0
    {
      var t := tries(attempt);
      if t.reply.Answer? || attempt >= retries || !t.alive || !t.reply.transient {
        return t.reply, attempt + 1;
      }
      if !t.waited {
        return t.reply, attempt + 1;
      }
      attempt := attempt + 1;
    }
  }

  // ---- A model step through the gateway ----

  /** len(body)/4 and the answer's bound, the gateway's own where the request asks none or more. */
  function Reservation(body: nat, asked: int): (r: nat)
    ensures body <= MAX_BODY ==> 1 <= r <= MAX_BODY / 4 + MAX_STEP_OUTPUT
    ensures
      var answer := if 0 < asked <= MAX_STEP_OUTPUT then asked else MAX_STEP_OUTPUT;
      4 * (r - answer) <= body < 4 * (r - answer) + 4
  {
    body / 4 + if asked <= 0 || asked > MAX_STEP_OUTPUT then MAX_STEP_OUTPUT else asked
  }

  /** A fallback on another provider, with that provider's attempts and retries. */
  datatype Fallback = Fallback(tries: nat -> Try, retries: int)

  datatype Served = Refused | Served(reply: Reply, attempts: nat, call: nat)

  /** The reply of a whole step: the fallback's where the review model's attempts failed and the request still lives. */
  function ReplyOf(tries: nat -> Try, retries: int, fallback: Option<Fallback>, alive: bool): Reply {
    var first := tries(LastTry(tries, 0, retries)).reply;
    if first.Failure? && alive && fallback.Some? then
      var f := fallback.value;
      f.tries(LastTry(f.tries, 0, f.retries)).reply
    else first
  }

  function PhaseOf(reply: Reply, written: bool): Phase {
    if !written then Lost
    else
      match reply
      case Answer(prompt, output) => Settled(prompt + output)
      case Failure(_) => Refunded
  }

  /** Another attempt would not help, or cannot be made. */
  predicate Stands(t: Try) {
    t.reply.Answer? || !t.alive || t.reply == Failure(false) || !t.waited
  }

  /** The attempts of a step are those up to number `a`: the first that stands, or the last its retries allow. */
  predicate EndsAt(tries: nat -> Try, retries: int, a: nat) {
    && a <= Max(retries, 0)
    && (forall i :: 0 <= i < a ==> !Stands(tries(i)))
    && (Stands(tries(a)) || a == Max(retries, 0))
  }

  lemma LastTryEnds(tries: nat -> Try, retries: int)
    ensures EndsAt(tries, retries, LastTry(tries, 0, retries))
  {
    hide LastTry;
    LastTryIsFirst(tries, 0, retries);
  }

  /** What a whole step comes to: the review model's attempts, and the fallback's where those failed and it may have it. */
  ghost predicate ComesTo(
    tries: nat -> Try, retries: int, fallback: Option<Fallback>, alive: bool, reply: Reply, attempts: nat)
  {
    exists a: nat ::
      && EndsAt(tries, retries, a)
      && if tries(a).reply.Failure? && alive && fallback.Some? then
           FallsBackTo(fallback.value, reply, attempts - (a + 1))
         else reply == tries(a).reply && attempts == a + 1
  }

  ghost predicate FallsBackTo(f: Fallback, reply: Reply, attempts: int) {
    exists b: nat :: EndsAt(f.tries, f.retries, b) && reply == f.tries(b).reply && attempts == b + 1
  }

  lemma StepComesTo(tries: nat -> Try, retries: int, fallback: Option<Fallback>, alive: bool, reply: Reply, attempts: nat)
    requires
      var a := LastTry(tries, 0, retries);
      if tries(a).reply.Failure? && alive && fallback.Some? then
        var b := LastTry(fallback.value.tries, 0, fallback.value.retries);
        reply == fallback.value.tries(b).reply && attempts == a + 1 + (b + 1)
      else reply == tries(a).reply && attempts == a + 1
    ensures ComesTo(tries, retries, fallback, alive, reply, attempts)
  {
    hide LastTry, EndsAt;
    var a := LastTry(tries, 0, retries);
    LastTryEnds(tries, retries);
    if tries(a).reply.Failure? && alive && fallback.Some? {
      LastTryEnds(fallback.value.tries, fallback.value.retries);
      assert FallsBackTo(fallback.value, reply, attempts - (a + 1));
    }
  }

  predicate Names(a: Action, own: Option<nat>) {
    own.Some? && (a.Settle? || a.Refund? || a.Lose?) && a.call == own.value
  }

  /**
    How a step that was reserved is settled: an answer costs its prompt and its output, a failure nothing, and where
    the write fails the estimate stands. The row, while it lives, moves by what that is less than the estimate.
   */
  predicate SettledAs(s: State, call: nat, reply: Reply, written: bool, t: State)
    requires call < |s.calls|
  {
    var reserved := s.calls[call].reserved;
    && t.now == s.now && |t.calls| == |s.calls| && (forall i :: 0 <= i < |s.calls| && i != call ==> t.calls[i] == s.calls[i])
    && t.calls[call].reserved == reserved
    && (s.row.None? <==> t.row.None?)
    && (s.row.Some? ==> t.row.value == s.row.value.(spent := t.row.value.spent))
    && if !written then t.calls[call].phase == Lost && t.row == s.row
       else if reply.Answer? then
         && t.calls[call].phase == Settled(reply.prompt + reply.output)
         && (s.row.Some? ==> t.row.value.spent == s.row.value.spent + reply.prompt + reply.output - reserved)
       else t.calls[call].phase == Refunded && (s.row.Some? ==> t.row.value.spent == s.row.value.spent - reserved)
  }

  /** A run's row and the steps the gateway serves on it. */
  class Gateway {
    var row: Option<Row>
    var calls: seq<Call>
    var now: int

    ghost function Abs(): State
      reads this
    {
      State(row, calls, now)
    }

    constructor (budget: int, expires: int, now: int)
      ensures Abs() == Init(budget, expires, now)
    {
      row, calls, this.now := Some(Row(budget, 0, expires)), [], now;
    }

    /** ReserveGatewayTokens. */
    method ReserveTokens(tokens: nat) returns (ok: bool)
      modifies this
      ensures Apply(old(Abs()), Reserve(tokens)) == Some(Abs())
      ensures ok <==> old(Grants(row, now))
      ensures !ok ==> Abs() == old(Abs())
      ensures calls == old(calls) + if ok then [Call(tokens, InFlight)] else []
    {
      if row.None? || row.value.expires <= now || row.value.spent >= row.value.budget {
        return false;
      }
      row := Some(row.value.(spent := row.value.spent + tokens));
      calls := calls + [Call(tokens, InFlight)];
      return true;
    }

    /** ChargeGatewayToken: it writes nothing once the row is gone. */
    method ChargeToken(tokens: int)
      modifies `row
      ensures row == Charged(old(row), tokens)
    {
      if row.Some? {
        row := Some(row.value.(spent := row.value.spent + tokens));
      }
    }

    /** charge: what replaces the reservation, where the write succeeds. */
    method Charge(call: nat, reserved: nat, reply: Reply, written: bool)
      requires Flying(Abs(), call) && calls[call].reserved == reserved
      modifies this
      ensures exists a :: Names(a, Some(call)) && Apply(old(Abs()), a) == Some(Abs())
      ensures calls == old(calls)[call := Call(reserved, PhaseOf(reply, written))]
      ensures SettledAs(old(Abs()), call, reply, written, Abs())
    {
      ghost var a := Lose(call);
      if written {
        match reply {
          case Failure(_) =>
            ChargeToken(-(reserved as int));
            a := Refund(call);
          case Answer(prompt, output) =>
            var spent := prompt + output;
            ChargeToken(spent - reserved);
            a := Settle(call, spent);
        }
      }
      calls := calls[call := Call(reserved, PhaseOf(reply, written))];
      assert Names(a, Some(call)) && Apply(old(Abs()), a) == Some(Abs());
    }

    /** What else happens to the run meanwhile: any actions but this step's own settlement. */
    method Meanwhile(actions: seq<Action>, own: Option<nat>, ghost start: State)
      requires Reaches(start, Abs()) && (own.Some? ==> own.value < |calls|)
      modifies this
      ensures Reaches(start, Abs())
      ensures own.Some? ==> own.value < |calls| && calls[own.value] == old(calls[own.value])
    {
      for i := 0 to |actions|
        invariant Reaches(start, Abs())
        invariant own.Some? ==> own.value < |calls| && calls[own.value] == old(calls[own.value])
      {
        var next := Apply(State(row, calls, now), actions[i]);
        if next.Some? && !Names(actions[i], own) {
          ReachesNext(start, Abs(), actions[i], next.value);
          row, calls, now := next.value.row, next.value.calls, next.value.now;
        }
      }
    }

    /**
      chat: one reservation covers every attempt, the fallback's included, and is settled by what came of
      them, whatever other steps of the run do before and during this one. `asking` is the state it reserves in, and
      `paying` the one it settles in.
     */
    method Chat(body: nat, asked: int, tries: nat -> Try, retries: int, fallback: Option<Fallback>,
                alive: bool, written: bool, before: seq<Action>, during: seq<Action>)
      returns (r: Served, ghost asking: State, ghost paying: State)
      modifies this
      ensures Reaches(old(Abs()), Abs()) && Reaches(old(Abs()), asking)
      ensures r.Refused? <==> asking.row.None? || asking.row.value.expires <= asking.now ||
                              asking.row.value.spent >= asking.row.value.budget
      ensures r.Refused? ==> Abs() == asking
      ensures r.Served? ==>
                && ComesTo(tries, retries, fallback, alive, r.reply, r.attempts)
                && r.call == |asking.calls| < |paying.calls| && Reaches(old(Abs()), paying)
                && paying.calls[r.call] ==
                   Call(body / 4 + (if 0 < asked <= MAX_STEP_OUTPUT then asked else MAX_STEP_OUTPUT), InFlight)
                && SettledAs(paying, r.call, r.reply, written, Abs())
      ensures r.Served? ==>
                && r.reply == ReplyOf(tries, retries, fallback, alive)
                && r.attempts <= Tries(retries) + (if fallback.Some? then Tries(fallback.value.retries) else 0)
                && r.call < |calls|
                && calls[r.call] == Call(Reservation(body, asked), PhaseOf(r.reply, written))
    {
      hide Apply, Run, Reaches, SettledAs, ComesTo, LastTry;
      ghost var start := Abs();
      ReachesSelf(start);
      Meanwhile(before, None, start);
      ghost var s := Abs();
      asking, paying := s, s;
      var reserved := Reservation(body, asked);
      var ok := ReserveTokens(reserved);
      ReachesNext(start, s, Reserve(reserved), Abs());
      if !ok {
        return Refused, asking, paying;
      }
      var call := |calls| - 1;
      var reply, attempts := Step(tries, retries);
      Meanwhile(during, Some(call), start);
      if reply.Failure? && alive && fallback.Some? {
        var more;
        reply, more := Step(fallback.value.tries, fallback.value.retries);
        attempts := attempts + more;
      }
      StepComesTo(tries, retries, fallback, alive, reply, attempts);
      paying := Abs();
      Charge(call, reserved, reply, written);
      ghost var a :| Names(a, Some(call)) && Apply(paying, a) == Some(Abs());
      ReachesNext(start, paying, a, Abs());
      return Served(reply, attempts, call), asking, paying;
    }
  }

  /** A failed step whose refund is written leaves nothing in the counter, whatever it reserved. */
  lemma {:induction false} FailedStepsLeaveNothing(calls: seq<Call>, i: nat, reserved: nat, transient: bool)
    requires i < |calls| && calls[i] == Call(reserved, PhaseOf(Failure(transient), true))
    ensures Sum(calls) == Sum(calls[..i] + calls[i + 1..])
    decreases |calls|
  {
    var last := |calls| - 1;
    var others := calls[..i] + calls[i + 1..];
    if i == last {
      assert others == calls[..last];
    } else {
      FailedStepsLeaveNothing(calls[..last], i, reserved, transient);
      assert others[..|others| - 1] == calls[..last][..i] + calls[..last][i + 1..];
    }
  }
}
