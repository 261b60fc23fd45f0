/**
  The agent loop of internal/agent/loop.go: step after step the model calls tools, until it submits, runs into a
  limit or loses its context. The model, the tools and the context are a `World` of arbitrary answers; `Do` is the
  loop, `Legal` says which exchanges it may have with the world.
 */
module AgentLoop {
  import opened Prelude
  import opened Conversation

  // ---- Limits ----

  datatype Limits = Limits(maxSteps: int, maxToolOutputBytes: int, maxTokens: int, maxOutputTokensPerStep: int)

  const DEFAULT_LIMITS := Limits(60, 32768, 4000000, 16384)

  function Or(value: int, default: int): int {
    if value != 0 then value else default
  }

  /** Every zero field takes its default. */
  function WithDefaults(l: Limits): Limits {
    Limits(
      Or(l.maxSteps, DEFAULT_LIMITS.maxSteps), Or(l.maxToolOutputBytes, DEFAULT_LIMITS.maxToolOutputBytes),
      Or(l.maxTokens, DEFAULT_LIMITS.maxTokens), Or(l.maxOutputTokensPerStep, DEFAULT_LIMITS.maxOutputTokensPerStep))
  }

  // ---- The run and its world ----

  type Phrase = s: string | s != "" witness "x"

  /**
    The phrases of the loop: the nudge, the order to submit, what stands in for a turn that says nothing, and what is
    said of a submission that was cut off.
   */
  datatype Phrases = Phrases(nudge: Phrase, submitNow: Phrase, noResponse: Phrase, cutOff: Phrase)

  /**
    `check` is checkSubmit: why a submission is not acceptable, None when it is. `cut` is textcut.Truncate, and `quote`
    how a name is printed with %q.
   */
  datatype Run = Run(
    user: string, tools: set<string>, submit: string, check: string -> Option<string>, cut: (string, int) -> string,
    quote: string -> string, limits: Limits, say: Phrases)

  datatype StepError = Budget(text: string) | Transient(text: string) | Refused(text: string)

  datatype Answer = Answered(resp: StepResponse) | Failed(err: StepError)

  datatype ToolOutcome = Output(text: string) | ToolError(text: string)

  /**
    What the loop meets: whether the context has ended when a step begins, the stepper's answer to each
    attempt of a step, whether the wait before a retry ran out, whether the context has ended once a step
    failed, and what each tool call of a step returns.
   */
  datatype World = World(
    ended: nat -> bool, answer: (nat, nat) -> Answer, waited: (nat, nat) -> bool, endedAfter: nat -> bool,
    tool: (nat, nat) -> ToolOutcome)

  datatype Stop = Submitted | MaxSteps | OutOfBudget | NoSubmit | Truncated | Canceled | Errored

  datatype Result = Result(stop: Stop, submitted: Option<string>, steps: nat, usage: Usage, err: string)

  const STEP_RETRIES := 4

  // ---- One step ----

  /** A step that failed transiently is sent again after each wait that runs out. */
  function Retry(w: World, step: nat, i: nat, answer: Answer): Answer
    requires i <= STEP_RETRIES
    decreases STEP_RETRIES - i
  {
    if i == STEP_RETRIES || answer.Answered? || !answer.err.Transient? then answer
    else Retry(w, step, i + 1, if w.waited(step, i) then w.answer(step, i + 1) else answer)
  }

  function StepAnswer(w: World, step: nat): Answer {
    Retry(w, step, 0, w.answer(step, 0))
  }

  method Ask(w: World, step: nat) returns (answer: Answer)
    ensures answer == StepAnswer(w, step)
  {
    answer := w.answer(step, 0);
    var i := 0;
    while i < STEP_RETRIES && answer.Failed? && answer.err.Transient?
      invariant 0 <= i <= STEP_RETRIES
      invariant Retry(w, step, i, answer) == StepAnswer(w, step)
    {
      if w.waited(step, i) {
        answer := w.answer(step, i + 1);
      }
      i := i + 1;
    }
  }

  /** What a turn's calls came to: a result each, or what ends the run. */
  datatype Calls = Results(results: seq<ToolResult>) | Accepted(input: string) | CutOff | Rejected

  function ErrorResult(r: Run, call: ToolCall, text: string): ToolResult {
    ToolResult(call.id, r.cut(text, WithDefaults(r.limits).maxToolOutputBytes), true)
  }

  /** One call: its result, or what ends the run at it. */
  function RunCall(r: Run, w: World, step: nat, resp: StepResponse, i: nat, forced: bool): Calls
    requires i < |resp.toolCalls|
  {
    var call := resp.toolCalls[i];
    if call.name == r.submit then
      match r.check(call.input)
      case None => Accepted(call.input)
      case Some(err) =>
        if resp.stop == StopReason.MaxTokens then CutOff
        else if forced then Rejected
        else Results([ErrorResult(r, call, "agent: submit_review: " + err)])
    else if call.name !in r.tools then Results([ErrorResult(r, call, "agent: unknown tool " + r.quote(call.name))])
    else
      match w.tool(step, i)
      case ToolError(text) => Results([ErrorResult(r, call, text)])
      case Output(text) => Results([ToolResult(call.id, r.cut(text, WithDefaults(r.limits).maxToolOutputBytes), false)])
  }

  /** The calls from `i` on, in order, up to the first that ends the run. */
  function RunCalls(r: Run, w: World, step: nat, resp: StepResponse, i: nat, forced: bool): Calls
    requires i <= |resp.toolCalls|
    decreases |resp.toolCalls| - i
  {
    if i == |resp.toolCalls| then Results([])
    else
      match RunCall(r, w, step, resp, i, forced)
      case Results(first) => After(first, RunCalls(r, w, step, resp, i + 1, forced))
      case end => end
  }

  // ---- The exchange ----

  /** One step as the stepper saw it: the messages sent, whether the model was told to submit, and its answer. */
  datatype Turn = Turn(messages: seq<Message>, forced: bool, answer: Answer)

  function Spend(u: Usage): int {
    u.Prompt() + u.output
  }

  function Total(turns: seq<Turn>): Usage {
    if turns == [] then NoUsage
    else
      var last := turns[|turns| - 1].answer;
      var before := Total(turns[..|turns| - 1]);
      if last.Answered? then before.Add(last.resp.usage) else before
  }

  /** The steps the model answered. */
  function Steps(turns: seq<Turn>): nat {
    if turns == [] then 0
    else Steps(turns[..|turns| - 1]) + if turns[|turns| - 1].answer.Answered? then 1 else 0
  }

  /** Some answered turn called nothing: the model was nudged. */
  predicate Nudged(turns: seq<Turn>) {
    exists i :: 0 <= i < |turns| && turns[i].answer.Answered? && turns[i].answer.resp.toolCalls == []
  }

  predicate LastStep(r: Run, step: nat) {
    step == WithDefaults(r.limits).maxSteps - 1
  }

  /** The last user message, told to submit. */
  function Force(r: Run, messages: seq<Message>): seq<Message>
    requires messages != []
  {
    var last := messages[|messages| - 1];
    messages[..|messages| - 1] +
    [last.(text := (if last.text != "" then last.text + "\n\n" else "") + r.say.submitNow)]
  }

  datatype Ending = Ending(stop: Stop, submitted: Option<string>, err: string)

  /** What the last turn ends the run with, None when the run goes on. */
  function AfterTurn(r: Run, w: World, turns: seq<Turn>): Option<Ending>
    requires turns != []
  {
    var step := |turns| - 1;
    var turn := turns[step];
    match turn.answer
    case Failed(err) =>
      if w.endedAfter(step) then Some(Ending(Canceled, None, ""))
      else Some(Ending(if err.Budget? then OutOfBudget else Errored, None, err.text))
    case Answered(resp) =>
      if resp.toolCalls == [] then
        if LastStep(r, step) then Some(Ending(MaxSteps, None, ""))
        else if Nudged(turns[..step]) then Some(Ending(NoSubmit, None, ""))
        else None
      else
        match RunCalls(r, w, step, resp, 0, turn.forced)
        case Accepted(input) => Some(Ending(Submitted, Some(input), ""))
        case CutOff => Some(Ending(Truncated, None, r.say.cutOff))
        case Rejected => Some(Ending(NoSubmit, None, ""))
        case Results(_) => if LastStep(r, step) then Some(Ending(MaxSteps, None, "")) else None
  }

  /** Whether the run ends before its next step, and how. */
  function Verdict(r: Run, w: World, turns: seq<Turn>): Option<Ending> {
    if turns != [] && AfterTurn(r, w, turns).Some? then AfterTurn(r, w, turns)
    else if w.ended(|turns|) then Some(Ending(Canceled, None, ""))
    else if Spend(Total(turns)) >= WithDefaults(r.limits).maxTokens then Some(Ending(OutOfBudget, None, ""))
    else None
  }

  /** The conversation after a turn that did not end the run. */
  function Extend(r: Run, w: World, turns: seq<Turn>): seq<Message>
    requires turns != [] && AfterTurn(r, w, turns) == None
  {
    var step := |turns| - 1;
    var turn := turns[step];
    var resp := turn.answer.resp;
    if resp.toolCalls == [] then
      turn.messages + [Message(Assistant, if resp.text != "" then resp.text else r.say.noResponse, [], [])] + [Says(r.say.nudge)]
    else
      turn.messages + [Message(Assistant, resp.text, resp.toolCalls, [])] +
      [Message(User, "", [], RunCalls(r, w, step, resp, 0, turn.forced).results)]
  }

  /** What the next step has to send. */
  function Base(r: Run, w: World, turns: seq<Turn>): (messages: seq<Message>)
    requires turns != [] ==> AfterTurn(r, w, turns) == None
    ensures messages != []
  {
    if turns == [] then [Says(r.user)] else Extend(r, w, turns)
  }

  /** The model must submit on this step. */
  predicate MustSubmit(r: Run, turns: seq<Turn>) {
    LastStep(r, |turns|) || Spend(Total(turns)) * 10 >= WithDefaults(r.limits).maxTokens * 9
  }

  function NextTurn(r: Run, w: World, turns: seq<Turn>): Turn
    requires Verdict(r, w, turns) == None
  {
    var base := Base(r, w, turns);
    var forced := MustSubmit(r, turns);
    Turn(if forced then Force(r, base) else base, forced, StepAnswer(w, |turns|))
  }

  /** The turns the loop has with its world: each follows from those before, and none of them ended the run. */
  ghost predicate Legal(r: Run, w: World, turns: seq<Turn>) {
    forall k :: 0 <= k < |turns| ==> Verdict(r, w, turns[..k]) == None && turns[k] == NextTurn(r, w, turns[..k])
  }

  // ---- What every exchange keeps ----

  /** A call that ends nothing has one result, of its id. */
  lemma CallIsAnswered(r: Run, w: World, step: nat, resp: StepResponse, i: nat, forced: bool)
    requires i < |resp.toolCalls|
    ensures
      var call := RunCall(r, w, step, resp, i, forced);
      call.Results? ==> |call.results| == 1 && call.results[0].callId == resp.toolCalls[i].id
  {
  }

  lemma AnswersCons(call: ToolCall, calls: seq<ToolCall>, result: ToolResult, results: seq<ToolResult>)
    requires result.callId == call.id && Answers(calls, results)
    ensures Answers([call] + calls, [result] + results)
  {
  }

  lemma RunCallsStep(r: Run, w: World, step: nat, resp: StepResponse, i: nat, forced: bool)
    requires i < |resp.toolCalls|
    ensures
      var (calls, call) := (RunCalls(r, w, step, resp, i, forced), RunCall(r, w, step, resp, i, forced));
      calls.Results? ==>
        call.Results? && RunCalls(r, w, step, resp, i + 1, forced).Results? &&
        calls.results == call.results + RunCalls(r, w, step, resp, i + 1, forced).results
  {
    hide RunCall;
  }

  lemma {:induction false} CallsAreAnswered(r: Run, w: World, step: nat, resp: StepResponse, i: nat, forced: bool)
    requires i <= |resp.toolCalls|
    ensures
      var calls := RunCalls(r, w, step, resp, i, forced);
      calls.Results? ==> Answers(resp.toolCalls[i..], calls.results)
    decreases |resp.toolCalls| - i
  {
    if i < |resp.toolCalls| {
      hide *;
      CallsAreAnswered(r, w, step, resp, i + 1, forced);
      CallIsAnswered(r, w, step, resp, i, forced);
      RunCallsStep(r, w, step, resp, i, forced);
      assert resp.toolCalls[i..] == [resp.toolCalls[i]] + resp.toolCalls[i + 1..];
      if RunCalls(r, w, step, resp, i, forced).Results? {
        var call, rest := RunCall(r, w, step, resp, i, forced), RunCalls(r, w, step, resp, i + 1, forced);
        assert call.results == [call.results[0]];
        AnswersCons(resp.toolCalls[i], resp.toolCalls[i + 1..], call.results[0], rest.results);
      }
    }
  }

  lemma ExtendKeepsShape(messages: seq<Message>, reply: Message, next: Message)
    requires LoopShape(messages) && AssistantTurn(reply) && UserTurn(next)
    requires Answers(reply.toolCalls, next.toolResults)
    requires reply.toolCalls == [] ==> next.text != ""
    ensures LoopShape(messages + [reply] + [next])
  {
    hide UserTurn, AssistantTurn, Answers;
    var all := messages + [reply] + [next];
    var n := |messages|;
    assert all[n] == reply && all[n + 1] == next;
    assert forall i :: 0 <= i < n ==> all[i] == messages[i];
  }

  lemma ForceKeepsShape(r: Run, messages: seq<Message>)
    requires LoopShape(messages)
    ensures LoopShape(Force(r, messages))
  {
  }

  lemma LegalPrefix(r: Run, w: World, turns: seq<Turn>, k: nat)
    requires Legal(r, w, turns) && k <= |turns|
    ensures Legal(r, w, turns[..k])
  {
    forall j | 0 <= j < k
      ensures turns[..k][..j] == turns[..j]
    {
    }
  }

  lemma ExtendShape(r: Run, w: World, turns: seq<Turn>)
    requires turns != [] && AfterTurn(r, w, turns) == None && LoopShape(turns[|turns| - 1].messages)
    ensures LoopShape(Extend(r, w, turns))
  {
    var step := |turns| - 1;
    var turn := turns[step];
    var resp := turn.answer.resp;
    if resp.toolCalls == [] {
      ExtendKeepsShape(
        turn.messages, Message(Assistant, if resp.text != "" then resp.text else r.say.noResponse, [], []), Says(r.say.nudge));
    } else {
      CallsAreAnswered(r, w, step, resp, 0, turn.forced);
      assert resp.toolCalls[0..] == resp.toolCalls;
      ExtendKeepsShape(
        turn.messages, Message(Assistant, resp.text, resp.toolCalls, []),
        Message(User, "", [], RunCalls(r, w, step, resp, 0, turn.forced).results));
    }
  }

  /**
    In every run, every request's conversation opens and ends with the user, alternates, and answers each
    tool call exactly once, in order, in the message after it.
   */
  lemma {:induction false} ConversationsAreWellShaped(r: Run, w: World, turns: seq<Turn>, k: nat)
    requires Legal(r, w, turns) && k < |turns|
    ensures LoopShape(turns[k].messages)
    decreases k
  {
    if k > 0 {
      ConversationsAreWellShaped(r, w, turns, k - 1);
      assert turns[..k][k - 1] == turns[k - 1];
      assert AfterTurn(r, w, turns[..k]) == None;
      ExtendShape(r, w, turns[..k]);
      ForceKeepsShape(r, Extend(r, w, turns[..k]));
    } else {
      ForceKeepsShape(r, [Says(r.user)]);
    }
  }

  lemma ExtendGrows(r: Run, w: World, turns: seq<Turn>)
    requires turns != [] && AfterTurn(r, w, turns) == None && turns[|turns| - 1].messages != []
    ensures
      var (sent, next) := (turns[|turns| - 1].messages, Extend(r, w, turns));
      sent < next && sent < Force(r, next) && |next| == |sent| + 2 && |Force(r, next)| == |next|
  {
    hide AfterTurn, RunCalls, Says;
  }

  /** The conversation only grows: what one step sent is what the next begins with. */
  lemma ConversationsGrow(r: Run, w: World, turns: seq<Turn>, k: nat)
    requires Legal(r, w, turns) && k + 1 < |turns|
    ensures turns[k].messages < turns[k + 1].messages
    ensures |turns[k + 1].messages| == |turns[k].messages| + 2
  {
    var sofar := turns[..k + 1];
    assert sofar[k] == turns[k];
    ConversationsAreWellShaped(r, w, turns, k);
    assert turns[k + 1] == NextTurn(r, w, sofar);
    LegalSoFar(r, w, turns, k + 1);
    ExtendGrows(r, w, sofar);
    hide AfterTurn, Extend, Force, Legal, Verdict, LoopShape;
  }

  /** Not every turn is answered. */
  lemma {:induction false} StepsOfTurns(turns: seq<Turn>)
    ensures Steps(turns) <= |turns|
    decreases |turns|
  {
    if turns != [] {
      StepsOfTurns(turns[..|turns| - 1]);
    }
  }

  /** The last step's turn ends the run. */
  lemma LastStepEnds(r: Run, w: World, turns: seq<Turn>)
    requires turns != [] && |turns| == WithDefaults(r.limits).maxSteps
    ensures AfterTurn(r, w, turns).Some?
  {
    hide RunCalls, Nudged, WithDefaults;
  }

  lemma NotTheLast(r: Run, w: World, turns: seq<Turn>, k: nat)
    requires Legal(r, w, turns) && 0 < k < |turns|
    ensures k != WithDefaults(r.limits).maxSteps
  {
    hide *;
    LegalSoFar(r, w, turns, k);
    if k == WithDefaults(r.limits).maxSteps {
      LastStepEnds(r, w, turns[..k]);
    }
  }

  lemma TurnsAreBounded(r: Run, w: World, turns: seq<Turn>)
    requires Legal(r, w, turns) && WithDefaults(r.limits).maxSteps >= 1
    ensures |turns| <= WithDefaults(r.limits).maxSteps
    ensures |turns| == WithDefaults(r.limits).maxSteps ==> AfterTurn(r, w, turns).Some?
  {
    hide *;
    var n := WithDefaults(r.limits).maxSteps;
    if n < |turns| {
      NotTheLast(r, w, turns, n);
    } else if |turns| == n {
      LastStepEnds(r, w, turns);
    }
  }

  /** For positive limits no run takes more than maxSteps steps, answered or not, whatever the world does. */
  lemma StepsAreBounded(r: Run, w: World, turns: seq<Turn>)
    requires Legal(r, w, turns) && WithDefaults(r.limits).maxSteps >= 1
    ensures Steps(turns) <= |turns| <= WithDefaults(r.limits).maxSteps
    ensures |turns| == WithDefaults(r.limits).maxSteps ==> AfterTurn(r, w, turns).Some?
  {
    hide *;
    StepsOfTurns(turns);
    TurnsAreBounded(r, w, turns);
  }

  /** Before every step, the run has spent less than its budget. */
  lemma SpendIsUnderBudget(r: Run, w: World, turns: seq<Turn>, k: nat)
    requires Legal(r, w, turns) && k < |turns|
    ensures Spend(Total(turns[..k])) == Tokens(turns[..k]) < WithDefaults(r.limits).maxTokens
  {
    hide *;
    TurnIs(r, w, turns, k);
    GoesOnUnderBudget(r, w, turns[..k]);
    SpendIsEveryToken(turns[..k]);
  }

  lemma GoesOnUnderBudget(r: Run, w: World, turns: seq<Turn>)
    requires Verdict(r, w, turns) == None
    ensures Spend(Total(turns)) < WithDefaults(r.limits).maxTokens
  {
    hide AfterTurn, Total, Spend, WithDefaults;
  }

  /** The model is nudged at most once: of two turns without a call, the second ends the run. */
  lemma NudgedOnce(r: Run, w: World, turns: seq<Turn>, j: nat, k: nat)
    requires Legal(r, w, turns) && j < k < |turns|
    requires turns[j].answer.Answered? && turns[j].answer.resp.toolCalls == []
    requires turns[k].answer.Answered? && turns[k].answer.resp.toolCalls == []
    ensures k == |turns| - 1 && AfterTurn(r, w, turns).Some?
  {
    hide *;
    var sofar := turns[..k + 1];
    LegalSoFar(r, w, turns, k + 1);
    SecondNudge(r, w, sofar, j);
    assert k + 1 == |turns| ==> sofar == turns;
  }

  lemma LegalSoFar(r: Run, w: World, turns: seq<Turn>, k: nat)
    requires Legal(r, w, turns) && 0 < k <= |turns|
    ensures k < |turns| ==> AfterTurn(r, w, turns[..k]) == None
  {
    hide AfterTurn;
  }

  lemma SecondNudge(r: Run, w: World, turns: seq<Turn>, j: nat)
    requires j + 1 < |turns|
    requires turns[j].answer.Answered? && turns[j].answer.resp.toolCalls == []
    requires turns[|turns| - 1].answer.Answered? && turns[|turns| - 1].answer.resp.toolCalls == []
    ensures AfterTurn(r, w, turns).Some?
  {
    var before := turns[..|turns| - 1];
    assert before[j] == turns[j];
    assert Nudged(before);
  }

  lemma MustSubmitIs(r: Run, turns: seq<Turn>)
    ensures MustSubmit(r, turns) <==>
            |turns| == WithDefaults(r.limits).maxSteps - 1 || Tokens(turns) * 10 >= WithDefaults(r.limits).maxTokens * 9
  {
    SpendIsEveryToken(turns);
    hide Tokens, Total, WithDefaults, Spend;
  }

  lemma TurnIs(r: Run, w: World, turns: seq<Turn>, k: nat)
    requires Legal(r, w, turns) && k < |turns|
    ensures Verdict(r, w, turns[..k]) == None
    ensures k > 0 ==> AfterTurn(r, w, turns[..k]) == None
    ensures turns[k].forced == MustSubmit(r, turns[..k])
    ensures turns[k].messages == if turns[k].forced then Force(r, Base(r, w, turns[..k])) else Base(r, w, turns[..k])
  {
    hide AfterTurn, Base, Force, MustSubmit, StepAnswer, Total;
    assert Verdict(r, w, turns[..k]) == None && turns[k] == NextTurn(r, w, turns[..k]);
  }

  /** The order to submit, alone or after a text and an empty line. */
  predicate Orders(text: string, submitNow: string) {
    var n := |text| - |submitNow|;
    && n >= 0 && text[n..] == submitNow
    && (n == 0 || (n > 2 && text[n - 2..n] == "\n\n"))
  }

  /** A step is forced exactly when the model must submit on it, and its request then closes with the order to. */
  lemma ForcedIsTold(r: Run, w: World, turns: seq<Turn>, k: nat)
    requires Legal(r, w, turns) && k < |turns|
    ensures turns[k].forced <==>
            k == WithDefaults(r.limits).maxSteps - 1 || Tokens(turns[..k]) * 10 >= WithDefaults(r.limits).maxTokens * 9
    ensures
      var text := turns[k].messages[|turns[k].messages| - 1].text;
      turns[k].forced ==> Orders(text, r.say.submitNow)
  {
    hide *;
    TurnIs(r, w, turns, k);
    MustSubmitIs(r, turns[..k]);
    ForceTells(r, Base(r, w, turns[..k]));
  }

  lemma ForceTells(r: Run, messages: seq<Message>)
    requires messages != []
    ensures
      var told := Force(r, messages);
      var text := told[|told| - 1].text;
      Orders(text, r.say.submitNow)
  {
    var last := messages[|messages| - 1];
    var lead := if last.text != "" then last.text + "\n\n" else "";
    assert (lead + r.say.submitNow)[|lead|..] == r.say.submitNow;
  }

  /** A run that submits does so with the input of its first acceptable submission, all calls before it answered. */
  lemma {:induction false} SubmissionIsAcceptable(r: Run, w: World, step: nat, resp: StepResponse, i: nat, forced: bool)
    requires i <= |resp.toolCalls| && RunCalls(r, w, step, resp, i, forced).Accepted?
    ensures exists k :: i <= k < |resp.toolCalls| && resp.toolCalls[k].name == r.submit &&
              resp.toolCalls[k].input == RunCalls(r, w, step, resp, i, forced).input &&
              r.check(resp.toolCalls[k].input) == None &&
              forall j :: i <= j < k ==> RunCall(r, w, step, resp, j, forced).Results?
    decreases |resp.toolCalls| - i
  {
    if RunCall(r, w, step, resp, i, forced).Results? {
      SubmissionIsAcceptable(r, w, step, resp, i + 1, forced);
    } else {
      assert resp.toolCalls[i].name == r.submit;
    }
  }

  // ---- What a turn's calls lead to, from the calls and the world alone ----

  /** The call ends the run: a submission that is acceptable, or may not be made again. */
  predicate Stops(r: Run, resp: StepResponse, i: nat, forced: bool)
    requires i < |resp.toolCalls|
  {
    && resp.toolCalls[i].name == r.submit
    && (r.check(resp.toolCalls[i].input).None? || resp.stop == StopReason.MaxTokens || forced)
  }

  predicate NoneStops(r: Run, resp: StepResponse, from: nat, to: nat, forced: bool)
    requires to <= |resp.toolCalls|
  {
    forall j :: from <= j < to ==> !Stops(r, resp, j, forced)
  }

  /**
    What the model is told of a call that ends nothing: a tool's output, or its error, cut to the limit; that there
    is no such tool; or why its submission was turned down. Only an output is no error.
   */
  predicate Tells(r: Run, w: World, step: nat, i: nat, call: ToolCall, result: ToolResult) {
    var cap := WithDefaults(r.limits).maxToolOutputBytes;
    && result.callId == call.id
    && if call.name == r.submit then
         result.isError && r.check(call.input).Some? &&
         result.content == r.cut("agent: submit_review: " + r.check(call.input).value, cap)
       else if call.name in r.tools then
         (result.isError <==> w.tool(step, i).ToolError?) && result.content == r.cut(w.tool(step, i).text, cap)
       else result.isError && result.content == r.cut("agent: unknown tool " + r.quote(call.name), cap)
  }

  /** What the first call that ends the run ends it with. */
  predicate EndsWithCall(r: Run, resp: StepResponse, k: nat, calls: Calls)
    requires k < |resp.toolCalls|
  {
    var input := resp.toolCalls[k].input;
    if r.check(input).None? then calls == Accepted(input)
    else if resp.stop == StopReason.MaxTokens then calls == CutOff
    else calls == Rejected
  }

  lemma OneCall(r: Run, w: World, step: nat, resp: StepResponse, i: nat, forced: bool)
    requires i < |resp.toolCalls|
    ensures
      var one := RunCall(r, w, step, resp, i, forced);
      if Stops(r, resp, i, forced) then !one.Results? && EndsWithCall(r, resp, i, one)
      else one.Results? && |one.results| == 1 && Tells(r, w, step, i, resp.toolCalls[i], one.results[0])
  {
  }

  ghost predicate AllTold(r: Run, w: World, step: nat, resp: StepResponse, i: nat, results: seq<ToolResult>)
    requires i <= |resp.toolCalls|
  {
    && |results| == |resp.toolCalls| - i
    && forall j :: i <= j < |resp.toolCalls| ==> Tells(r, w, step, j, resp.toolCalls[j], results[j - i])
  }

  lemma ToldOneMore(r: Run, w: World, step: nat, resp: StepResponse, i: nat, first: ToolResult, rest: seq<ToolResult>)
    requires i < |resp.toolCalls| && Tells(r, w, step, i, resp.toolCalls[i], first) && AllTold(r, w, step, resp, i + 1, rest)
    ensures AllTold(r, w, step, resp, i, [first] + rest)
  {
    hide Tells;
  }

  /** Calls whose run goes on are told of one by one; otherwise the first that ends it does, whatever comes after it. */
  lemma {:induction false} CallsComeTo(r: Run, w: World, step: nat, resp: StepResponse, i: nat, forced: bool)
    returns (k: nat)
    requires i <= |resp.toolCalls|
    ensures
      var calls := RunCalls(r, w, step, resp, i, forced);
      && i <= k <= |resp.toolCalls| && NoneStops(r, resp, i, k, forced)
      && (calls.Results? <==> k == |resp.toolCalls|)
      && (calls.Results? ==> AllTold(r, w, step, resp, i, calls.results))
      && (k < |resp.toolCalls| ==> Stops(r, resp, k, forced) && EndsWithCall(r, resp, k, calls))
    decreases |resp.toolCalls| - i
  {
    hide RunCall, Stops, Tells, EndsWithCall;
    k := i;
    if i < |resp.toolCalls| {
      OneCall(r, w, step, resp, i, forced);
      if !Stops(r, resp, i, forced) {
        k := CallsComeTo(r, w, step, resp, i + 1, forced);
        RunCallsStep(r, w, step, resp, i, forced);
        var one, rest := RunCall(r, w, step, resp, i, forced), RunCalls(r, w, step, resp, i + 1, forced);
        assert one.results == [one.results[0]];
        if rest.Results? {
          ToldOneMore(r, w, step, resp, i, one.results[0], rest.results);
        }
      }
    }
  }

  lemma ForceKeepsTheRest(r: Run, messages: seq<Message>)
    requires messages != []
    ensures
      var told := Force(r, messages);
      && |told| == |messages| && told[..|messages| - 1] == messages[..|messages| - 1]
      && told[|messages| - 1].toolResults == messages[|messages| - 1].toolResults
      && told[|messages| - 1].role == messages[|messages| - 1].role
      && messages[|messages| - 1].text <= told[|messages| - 1].text
  {
  }

  lemma ExtendIs(r: Run, w: World, turns: seq<Turn>)
    requires turns != [] && AfterTurn(r, w, turns) == None && turns[|turns| - 1].answer.Answered?
    ensures
      var turn := turns[|turns| - 1];
      var resp := turn.answer.resp;
      Extend(r, w, turns) ==
      if resp.toolCalls == [] then
        turn.messages + [Message(Assistant, if resp.text != "" then resp.text else r.say.noResponse, [], [])] +
        [Message(User, r.say.nudge, [], [])]
      else
        turn.messages + [Message(Assistant, resp.text, resp.toolCalls, [])] +
        [Message(User, "", [], RunCalls(r, w, |turns| - 1, resp, 0, turn.forced).results)]
    ensures Base(r, w, turns) == Extend(r, w, turns)
  {
    hide RunCalls, AfterTurn;
  }

  /** What follows an answered turn begins with what was sent, then has one message of each side. */
  lemma NextMessages(r: Run, w: World, turns: seq<Turn>, k: nat)
    requires Legal(r, w, turns) && k + 1 < |turns| && turns[k].answer.Answered?
    ensures
      var (resp, sent, next) := (turns[k].answer.resp, turns[k].messages, turns[k + 1].messages);
      && |next| == |sent| + 2 && next[..|sent|] == sent && AfterTurn(r, w, turns[..k + 1]) == None
      && next[|sent| + 1].role == User
      && if resp.toolCalls == [] then
           && next[|sent|] == Message(Assistant, if resp.text != "" then resp.text else r.say.noResponse, [], [])
           && r.say.nudge <= next[|sent| + 1].text && next[|sent| + 1].toolResults == []
         else
           && next[|sent|] == Message(Assistant, resp.text, resp.toolCalls, [])
           && RunCalls(r, w, k, resp, 0, turns[k].forced).Results?
           && next[|sent| + 1].toolResults == RunCalls(r, w, k, resp, 0, turns[k].forced).results
  {
    hide *;
    var sofar := turns[..k + 1];
    assert sofar[k] == turns[k];
    TurnIs(r, w, turns, k + 1);
    RunGoesOn(r, w, sofar);
    ExtendIs(r, w, sofar);
    ForceKeepsTheRest(r, Extend(r, w, sofar));
    var sent, base, next := turns[k].messages, Extend(r, w, sofar), turns[k + 1].messages;
    assert |base| == |sent| + 2 && base[..|sent|] == sent;
    assert next[..|sent| + 1] == base[..|sent| + 1];
    assert next[..|sent|] == next[..|sent| + 1][..|sent|] && next[|sent|] == next[..|sent| + 1][|sent|];
    assert base[|sent|] == base[..|sent| + 1][|sent|];
  }

  lemma ToldAt(r: Run, w: World, step: nat, resp: StepResponse, results: seq<ToolResult>, i: nat)
    requires AllTold(r, w, step, resp, 0, results) && i < |resp.toolCalls|
    ensures |results| == |resp.toolCalls| && Tells(r, w, step, i, resp.toolCalls[i], results[i])
  {
    hide Tells;
  }

  /** The conversation goes on after what was sent: the assistant's calls, and a message that tells of call i. */
  predicate GoesOnWith(r: Run, w: World, step: nat, sent: seq<Message>, resp: StepResponse, next: seq<Message>, i: nat)
    requires i < |resp.toolCalls|
  {
    && |next| == |sent| + 2 && next[..|sent|] == sent
    && next[|sent|] == Message(Assistant, resp.text, resp.toolCalls, [])
    && |next[|sent| + 1].toolResults| == |resp.toolCalls|
    && Tells(r, w, step, i, resp.toolCalls[i], next[|sent| + 1].toolResults[i])
  }

  lemma GoesOnWithIs(
    r: Run, w: World, step: nat, sent: seq<Message>, resp: StepResponse, next: seq<Message>, i: nat, results: seq<ToolResult>)
    requires i < |resp.toolCalls| && |next| == |sent| + 2 && next[..|sent|] == sent
    requires next[|sent|] == Message(Assistant, resp.text, resp.toolCalls, [])
    requires next[|sent| + 1].toolResults == results && AllTold(r, w, step, resp, 0, results)
    ensures GoesOnWith(r, w, step, sent, resp, next, i)
  {
    hide Tells;
    ToldAt(r, w, step, resp, results, i);
  }

  /** A turn whose calls are answered is followed by a message that tells the model of each. */
  lemma ResultsTellTheCalls(r: Run, w: World, turns: seq<Turn>, k: nat, i: nat)
    requires Legal(r, w, turns) && k + 1 < |turns| && turns[k].answer.Answered? && i < |turns[k].answer.resp.toolCalls|
    ensures GoesOnWith(r, w, k, turns[k].messages, turns[k].answer.resp, turns[k + 1].messages, i)
  {
    hide *;
    var resp := turns[k].answer.resp;
    NextMessages(r, w, turns, k);
    var stop := CallsComeTo(r, w, k, resp, 0, turns[k].forced);
    GoesOnWithIs(r, w, k, turns[k].messages, resp, turns[k + 1].messages, i,
                 RunCalls(r, w, k, resp, 0, turns[k].forced).results);
  }

  /** A turn with calls that ends nothing has them all told of. */
  lemma RunGoesOn(r: Run, w: World, turns: seq<Turn>)
    requires turns != [] && AfterTurn(r, w, turns) == None
    ensures
      var turn := turns[|turns| - 1];
      && turn.answer.Answered?
      && (turn.answer.resp.toolCalls != [] ==> RunCalls(r, w, |turns| - 1, turn.answer.resp, 0, turn.forced).Results?)
  {
    hide RunCalls, Nudged;
  }

  /** A turn without a call that ends nothing is followed by what it said and the nudge. */
  lemma SilenceIsNudged(r: Run, w: World, turns: seq<Turn>, k: nat)
    requires Legal(r, w, turns) && k + 1 < |turns| && turns[k].answer.Answered? && turns[k].answer.resp.toolCalls == []
    ensures
      var (resp, sent, next) := (turns[k].answer.resp, turns[k].messages, turns[k + 1].messages);
      && |next| == |sent| + 2
      && next[|sent|] == Message(Assistant, if resp.text != "" then resp.text else r.say.noResponse, [], [])
      && r.say.nudge <= next[|sent| + 1].text && next[|sent| + 1].toolResults == []
  {
    hide *;
    NextMessages(r, w, turns, k);
  }

  /** The run opens with what the user says, and nothing else but the order to submit where it is forced at once. */
  lemma OpensWithTheUser(r: Run, w: World, turns: seq<Turn>)
    requires Legal(r, w, turns) && turns != []
    ensures |turns[0].messages| == 1 && r.user <= turns[0].messages[0].text
    ensures turns[0].messages[0].role == User && (turns[0].forced || turns[0].messages == [Says(r.user)])
  {
    assert turns[..0] == [];
    assert turns[0] == NextTurn(r, w, []);
  }

  /**
    How a turn the model answered ends the run: with its first call that ends one, as submitted, cut off or without a
    submission; without calls, or with none that does, at the step limit; and without calls for the second time.
   */
  lemma AnsweredTurnEnds(r: Run, w: World, turns: seq<Turn>) returns (k: nat)
    requires turns != [] && turns[|turns| - 1].answer.Answered?
    ensures
      var (turn, last) := (turns[|turns| - 1], |turns| == WithDefaults(r.limits).maxSteps);
      var (resp, ending) := (turn.answer.resp, AfterTurn(r, w, turns));
      && k <= |resp.toolCalls| && NoneStops(r, resp, 0, k, turn.forced)
      && if k < |resp.toolCalls| then
           && Stops(r, resp, k, turn.forced)
           && ending == Some(if r.check(resp.toolCalls[k].input).None? then
                               Ending(Submitted, Some(resp.toolCalls[k].input), "")
                             else if resp.stop == StopReason.MaxTokens then Ending(Truncated, None, r.say.cutOff)
                             else Ending(NoSubmit, None, ""))
         else if last then ending == Some(Ending(MaxSteps, None, ""))
         else if resp.toolCalls == [] && Nudged(turns[..|turns| - 1]) then ending == Some(Ending(NoSubmit, None, ""))
         else ending == None
  {
    hide RunCalls, Nudged, Stops;
    var turn := turns[|turns| - 1];
    k := CallsComeTo(r, w, |turns| - 1, turn.answer.resp, 0, turn.forced);
  }

  // ---- What a step's answer is ----

  /** The attempt was made: the first, or one after a wait that ran out. */
  predicate Tried(w: World, step: nat, k: nat) {
    k == 0 || w.waited(step, k - 1)
  }

  predicate Passing(a: Answer) {
    a.Failed? && a.err.Transient?
  }

  /** No attempt from k to n but failed transiently. */
  predicate AllPass(w: World, step: nat, k: nat, n: nat) {
    forall j :: k <= j < n && Tried(w, step, j) ==> Passing(w.answer(step, j))
  }

  predicate NoneTried(w: World, step: nat, k: nat, n: nat) {
    forall j :: k <= j < n ==> !Tried(w, step, j)
  }

  lemma {:induction false} RetriesFrom(w: World, step: nat, last: nat, i: nat) returns (k: nat)
    requires last <= i <= STEP_RETRIES && Tried(w, step, last) && NoneTried(w, step, last + 1, i + 1)
    requires AllPass(w, step, 0, last)
    ensures k <= STEP_RETRIES && Tried(w, step, k) && AllPass(w, step, 0, k)
    ensures Retry(w, step, i, w.answer(step, last)) == w.answer(step, k)
    ensures !Passing(w.answer(step, k)) || NoneTried(w, step, k + 1, STEP_RETRIES + 1)
    decreases STEP_RETRIES - i
  {
    k := last;
    if i < STEP_RETRIES && Passing(w.answer(step, last)) {
      if w.waited(step, i) {
        assert Tried(w, step, i + 1) && AllPass(w, step, 0, i + 1);
        k := RetriesFrom(w, step, i + 1, i + 1);
      } else {
        k := RetriesFrom(w, step, last, i + 1);
      }
    }
  }

  /**
    A step's answer is the first attempt made that is no transient failure, or, when there is none among them, the
    last one made; there are at most five, and each after the first follows a wait that ran out.
   */
  lemma AnswerIsTheFirstThatStands(w: World, step: nat) returns (k: nat)
    ensures k <= STEP_RETRIES && Tried(w, step, k) && AllPass(w, step, 0, k) && StepAnswer(w, step) == w.answer(step, k)
    ensures !Passing(w.answer(step, k)) || NoneTried(w, step, k + 1, STEP_RETRIES + 1)
  {
    k := RetriesFrom(w, step, 0, 0);
  }

  // ---- What is spent ----

  /** The tokens of every part of every answered turn. */
  function Tokens(turns: seq<Turn>): int {
    if turns == [] then 0
    else
      var a := turns[|turns| - 1].answer;
      Tokens(turns[..|turns| - 1]) +
      if a.Failed? then 0
      else a.resp.usage.input + a.resp.usage.cacheRead + a.resp.usage.cacheWrite + a.resp.usage.output
  }

  lemma {:induction false} SpendIsEveryToken(turns: seq<Turn>)
    ensures Spend(Total(turns)) == Tokens(turns)
    decreases |turns|
  {
    if turns != [] {
      SpendIsEveryToken(turns[..|turns| - 1]);
    }
  }

  /** A world that calls a tool nobody offers, for ever, at no cost. */
  ghost predicate Babbles(w: World, name: string) {
    forall step: nat ::
      !w.ended(step) && w.answer(step, 0) == Answered(StepResponse("", [ToolCall("1", name, "")], ToolUse, NoUsage, 0.0, "", ""))
  }

  lemma SomeWorldBabbles(name: string)
    ensures exists w :: Babbles(w, name)
  {
    var w := World(
      _ => false, (_, _) => Answered(StepResponse("", [ToolCall("1", name, "")], ToolUse, NoUsage, 0.0, "", "")),
      (_, _) => false, _ => false, (_, _) => Output(""));
    assert Babbles(w, name);
  }

  lemma BabblingAnswers(w: World, name: string, step: nat)
    requires Babbles(w, name)
    ensures !w.ended(step)
    ensures
      var answer := StepAnswer(w, step);
      answer.Answered? && |answer.resp.toolCalls| == 1 && answer.resp.toolCalls[0].name == name && answer.resp.usage == NoUsage
  {
    assert !w.ended(step);
  }

  lemma UnknownCallGoesOn(r: Run, w: World, step: nat, resp: StepResponse, name: string, forced: bool)
    requires |resp.toolCalls| == 1 && resp.toolCalls[0].name == name && name !in r.tools && name != r.submit
    ensures RunCalls(r, w, step, resp, 0, forced).Results?
  {
    assert RunCall(r, w, step, resp, 0, forced).Results?;
    assert RunCalls(r, w, step, resp, 1, forced) == Results([]);
  }

  lemma UnknownTurnGoesOn(r: Run, w: World, turns: seq<Turn>, name: string)
    requires r.limits.maxSteps < 0 && name !in r.tools && name != r.submit
    requires turns != [] && turns[|turns| - 1].answer.Answered?
    requires |turns[|turns| - 1].answer.resp.toolCalls| == 1 && turns[|turns| - 1].answer.resp.toolCalls[0].name == name
    ensures AfterTurn(r, w, turns) == None
  {
    var step := |turns| - 1;
    UnknownCallGoesOn(r, w, step, turns[step].answer.resp, name, turns[step].forced);
    hide RunCalls, Nudged;
  }

  lemma BabblingTurnGoesOn(r: Run, w: World, name: string, turns: seq<Turn>)
    requires Babbles(w, name) && r.limits.maxSteps < 0 && name !in r.tools && name != r.submit
    requires turns != [] && turns[|turns| - 1].answer == StepAnswer(w, |turns| - 1)
    ensures AfterTurn(r, w, turns) == None
  {
    hide *;
    BabblingAnswers(w, name, |turns| - 1);
    UnknownTurnGoesOn(r, w, turns, name);
  }

  lemma NothingSpent()
    ensures Spend(NoUsage) == 0
  {
  }

  lemma NoVerdict(r: Run, w: World, turns: seq<Turn>)
    requires turns != [] ==> AfterTurn(r, w, turns) == None
    requires !w.ended(|turns|) && Spend(Total(turns)) < WithDefaults(r.limits).maxTokens
    ensures Verdict(r, w, turns) == None
  {
    hide AfterTurn, Total, WithDefaults, Spend;
  }

  lemma NextAnswer(r: Run, w: World, turns: seq<Turn>)
    requires Verdict(r, w, turns) == None
    ensures NextTurn(r, w, turns).answer == StepAnswer(w, |turns|)
  {
    hide AfterTurn, Verdict, Total, WithDefaults, StepAnswer, Base, Force, MustSubmit;
  }

  lemma GoesOn(r: Run, w: World, turns: seq<Turn>)
    requires turns != [] ==> AfterTurn(r, w, turns) == None
    requires !w.ended(|turns|) && Total(turns) == NoUsage && WithDefaults(r.limits).maxTokens > 0
    ensures Verdict(r, w, turns) == None && NextTurn(r, w, turns).answer == StepAnswer(w, |turns|)
  {
    hide *;
    NothingSpent();
    NoVerdict(r, w, turns);
    NextAnswer(r, w, turns);
  }

  /** The step limit is what ends a run: with a negative one, and a budget, some world keeps the loop going for any number of steps. */
  lemma {:induction false} NegativeStepsNeverEnd(r: Run, w: World, name: string, n: nat) returns (turns: seq<Turn>)
    requires Babbles(w, name)
    requires r.limits.maxSteps < 0 && WithDefaults(r.limits).maxTokens > 0 && name !in r.tools && name != r.submit
    ensures |turns| == n && Legal(r, w, turns) && Total(turns) == NoUsage
    ensures n > 0 ==> turns[n - 1].answer == StepAnswer(w, n - 1)
    decreases n
  {
    hide *;
    turns := [];
    if n == 0 {
      NothingIsLegal(r, w);
    } else {
      var before := NegativeStepsNeverEnd(r, w, name, n - 1);
      BabblingAnswers(w, name, n - 1);
      if n > 1 {
        BabblingTurnGoesOn(r, w, name, before);
      }
      GoesOn(r, w, before);
      var turn := NextTurn(r, w, before);
      turns := before + [turn];
      LegalAppend(r, w, before, turns);
      TurnCounts(before, turn);
      NoUsageAdds();
    }
  }

  // ---- Exactly when every run ends ----

  /** The loop's exchange with the world comes to an end. */
  ghost predicate Ends(r: Run, w: World) {
    exists turns :: Legal(r, w, turns) && Verdict(r, w, turns).Some?
  }

  /** The limits that end a run by themselves: of its steps, or a budget used up before the first. */
  predicate Bounded(limits: Limits) {
    limits.maxSteps >= 0 || WithDefaults(limits).maxTokens <= 0
  }

  /** Under a step limit whatever was exchanged so far goes on to an end. */
  lemma {:induction false} GoesOnToAnEnd(r: Run, w: World, turns: seq<Turn>)
    requires Legal(r, w, turns) && WithDefaults(r.limits).maxSteps >= 1
    ensures Ends(r, w)
    decreases WithDefaults(r.limits).maxSteps - |turns|
  {
    hide AfterTurn, Legal, Verdict, NextTurn, WithDefaults;
    StepsAreBounded(r, w, turns);
    if Verdict(r, w, turns) == None {
      if turns != [] {
        NoneAfterTurn(r, w, turns);
      }
      var next := turns + [NextTurn(r, w, turns)];
      LegalAppend(r, w, turns, next);
      StepsAreBounded(r, w, next);
      GoesOnToAnEnd(r, w, next);
    }
  }

  lemma NoneAfterTurn(r: Run, w: World, turns: seq<Turn>)
    requires turns != [] && Verdict(r, w, turns) == None
    ensures AfterTurn(r, w, turns) == None
  {
  }

  lemma EndsWith(r: Run, w: World, turns: seq<Turn>)
    requires Legal(r, w, turns) && Verdict(r, w, turns).Some?
    ensures Ends(r, w)
  {
  }

  /** A budget that is not positive is used up before the first step. */
  lemma NoBudgetEnds(r: Run, w: World)
    requires WithDefaults(r.limits).maxTokens <= 0
    ensures Ends(r, w)
  {
    hide *;
    NothingIsLegal(r, w);
    NothingSpent();
    StepEnded(r, w, [], if w.ended(0) then Canceled else OutOfBudget);
    EndsWith(r, w, []);
  }

  lemma {:induction false} BabblingSpendsNothing(r: Run, w: World, name: string, turns: seq<Turn>)
    requires Babbles(w, name) && Legal(r, w, turns)
    ensures Total(turns) == NoUsage
    ensures turns != [] ==> turns[|turns| - 1].answer == StepAnswer(w, |turns| - 1)
    decreases |turns|
  {
    hide *;
    if turns == [] {
      NothingIsLegal(r, w);
    } else {
      var n := |turns| - 1;
      LegalPrefix(r, w, turns, n);
      BabblingSpendsNothing(r, w, name, turns[..n]);
      LegalLast(r, w, turns);
      BabblingAnswers(w, name, n);
      TurnCounts(turns[..n], turns[n]);
      assert turns == turns[..n] + [turns[n]];
      NoUsageAdds();
    }
  }

  lemma LegalLast(r: Run, w: World, turns: seq<Turn>)
    requires Legal(r, w, turns) && turns != []
    ensures turns[|turns| - 1].answer == StepAnswer(w, |turns| - 1)
  {
    hide StepAnswer;
    var n := |turns| - 1;
    assert Verdict(r, w, turns[..n]) == None && turns[n] == NextTurn(r, w, turns[..n]);
    NextAnswer(r, w, turns[..n]);
  }

  /** A world that babbles never ends a run without a step limit and with a budget. */
  lemma BabblingNeverEnds(r: Run, w: World, name: string, turns: seq<Turn>)
    requires Babbles(w, name) && Legal(r, w, turns)
    requires r.limits.maxSteps < 0 && WithDefaults(r.limits).maxTokens > 0 && name !in r.tools && name != r.submit
    ensures Verdict(r, w, turns) == None
  {
    hide *;
    BabblingSpendsNothing(r, w, name, turns);
    if turns != [] {
      BabblingTurnGoesOn(r, w, name, turns);
    }
    BabblingAnswers(w, name, |turns|);
    GoesOn(r, w, turns);
  }

  lemma {:induction false} SomeNameIsLonger(names: set<string>) returns (n: nat)
    ensures forall name :: name in names ==> |name| < n
    decreases |names|
  {
    if names == {} {
      n := 0;
    } else {
      var one :| one in names;
      var m := SomeNameIsLonger(names - {one});
      n := Max(m, |one| + 1);
      assert forall name :: name in names ==> name == one || name in names - {one};
    }
  }

  /** Whatever tools are offered, some name is none of them. */
  lemma SomeNameIsUnknown(tools: set<string>, submit: string) returns (name: string)
    ensures name !in tools && name != submit
  {
    var n := SomeNameIsLonger(tools + {submit});
    name := seq(n, _ => 'x');
    assert submit in tools + {submit};
    assert forall other :: other in tools ==> other in tools + {submit};
  }

  /**
    A run ends whatever its world does exactly when its step limit is not negative, zero being the default, or it
    has no budget to begin with.
   */
  lemma EveryRunEndsIff(r: Run)
    ensures (forall w :: Ends(r, w)) <==> Bounded(r.limits)
  {
    hide Legal, Verdict, Babbles;
    if r.limits.maxSteps >= 0 {
      forall w ensures Ends(r, w) {
        NothingIsLegal(r, w);
        GoesOnToAnEnd(r, w, []);
      }
    } else if WithDefaults(r.limits).maxTokens <= 0 {
      forall w ensures Ends(r, w) {
        NoBudgetEnds(r, w);
      }
    } else {
      var name := SomeNameIsUnknown(r.tools, r.submit);
      SomeWorldBabbles(name);
      var w :| Babbles(w, name);
      forall turns | Legal(r, w, turns) ensures Verdict(r, w, turns) == None {
        BabblingNeverEnds(r, w, name, turns);
      }
      assert !Ends(r, w);
    }
  }

  lemma NoUsageAdds()
    ensures NoUsage.Add(NoUsage) == NoUsage
  {
  }

  lemma NothingIsLegal(r: Run, w: World)
    ensures Legal(r, w, []) && Total([]) == NoUsage
  {
  }

  // ---- The loop ----

  function Outcome(turns: seq<Turn>, ending: Ending): Result {
    Result(ending.stop, ending.submitted, Steps(turns), Total(turns), ending.err)
  }

  /** What the loop carries from one step to the next. */
  datatype Carried = Carried(messages: seq<Message>, usage: Usage, steps: nat, nudged: bool)

  /** The run goes on after these turns, and the loop carries what they come to. */
  ghost predicate Going(r: Run, w: World, turns: seq<Turn>, c: Carried) {
    && Legal(r, w, turns) && (turns != [] ==> AfterTurn(r, w, turns) == None)
    && c == Carried(Base(r, w, turns), Total(turns), Steps(turns), Nudged(turns))
  }

  /** The run ends after these turns, with this result. */
  ghost predicate Ended(r: Run, w: World, turns: seq<Turn>, result: Result) {
    && Legal(r, w, turns) && Verdict(r, w, turns).Some?
    && result == Outcome(turns, Verdict(r, w, turns).value)
  }

  /**
    Do: the turns it had with the world and how it ended. The turns follow from the world step by step,
    the run ends at the first turn that ends it, and the result counts every answered step. Under any other
    limits the loop need not end (EveryRunEndsIff).
   */
  method Do(r: Run, w: World) returns (result: Result, turns: seq<Turn>)
    requires Bounded(r.limits)
    ensures Legal(r, w, turns)
    ensures Verdict(r, w, turns).Some? && result == Outcome(turns, Verdict(r, w, turns).value)
    ensures result.steps <= |turns| && (turns != [] ==> |turns| <= WithDefaults(r.limits).maxSteps)
    ensures result.submitted.Some? <==> result.stop == Submitted
  {
    hide *;
    NoTurns(r, w);
    GoingAtFirst(r, w);
    var c := Carried([Says(r.user)], NoUsage, 0, false);
    var ended := None;
    turns := [];
    while ended.None?
      invariant ended.None? ==> Going(r, w, turns, c) && (turns == [] || |turns| < WithDefaults(r.limits).maxSteps)
      invariant ended.Some? ==> Ended(r, w, turns, ended.value)
      invariant turns != [] ==> |turns| <= WithDefaults(r.limits).maxSteps
      decreases ended.None?, WithDefaults(r.limits).maxSteps - |turns|
    {
      GoingSpends(r, w, turns, c);
      ended, turns, c := Step(r, w, turns, c);
      StillBounded(r, w, turns, c, ended);
    }
    EndedIs(r, w, turns, ended.value);
    return ended.value, turns;
  }

  /** One turn of the loop: it ends the run, or sends a step and goes on. */
  method Step(r: Run, w: World, before: seq<Turn>, c: Carried)
    returns (ended: Option<Result>, turns: seq<Turn>, next: Carried)
    requires Going(r, w, before, c)
    ensures match ended case Some(result) => Ended(r, w, turns, result) case None => Going(r, w, turns, next)
    ensures turns == before || |turns| == |before| + 1
    ensures Spend(c.usage) >= WithDefaults(r.limits).maxTokens ==> turns == before
    ensures ended.None? ==> turns != before
  {
    hide *;
    GoingIs(r, w, before, c);
    var step := |before|;
    if w.ended(step) {
      StepEnded(r, w, before, Canceled);
      EndedOf(r, w, before, Ending(Canceled, None, ""));
      return Some(Result(Canceled, None, c.steps, c.usage, "")), before, c;
    }
    if Spend(c.usage) >= WithDefaults(r.limits).maxTokens {
      StepEnded(r, w, before, OutOfBudget);
      EndedOf(r, w, before, Ending(OutOfBudget, None, ""));
      return Some(Result(OutOfBudget, None, c.steps, c.usage, "")), before, c;
    }
    var turn := Send(r, w, before, c.messages, Spend(c.usage));
    TakenTurn(r, w, before, turn);
    turns := before + [turn];
    ended, next := Carry(r, w, before, turn, c);
  }

  /** The step has been sent: its failure ends the run, its answer may, or the loop carries on from it. */
  method Carry(r: Run, w: World, before: seq<Turn>, turn: Turn, c: Carried) returns (ended: Option<Result>, next: Carried)
    requires Going(r, w, before, c) && Verdict(r, w, before) == None && turn == NextTurn(r, w, before)
    ensures
      match ended
      case Some(result) => Ended(r, w, before + [turn], result)
      case None => Going(r, w, before + [turn], next)
  {
    hide *;
    GoingIs(r, w, before, c);
    TakenTurn(r, w, before, turn);
    var turns := before + [turn];
    if turn.answer.Failed? {
      var err := turn.answer.err;
      var stop := if w.endedAfter(|before|) then Canceled else if err.Budget? then OutOfBudget else Errored;
      var text := if stop == Canceled then "" else err.text;
      FailedTurn(r, w, turns);
      EndedOf(r, w, turns, Ending(stop, None, text));
      return Some(Result(stop, None, c.steps, c.usage, text)), c;
    }
    var resp := turn.answer.resp;
    var ending, messages := Settle(r, w, turns, c.nudged);
    next := Carried(messages, c.usage.Add(resp.usage), c.steps + 1, c.nudged || resp.toolCalls == []);
    if ending.Some? {
      EndedTurn(r, w, turns, ending.value);
      EndedOf(r, w, turns, ending.value);
      return Some(Result(ending.value.stop, ending.value.submitted, next.steps, next.usage, ending.value.err)), next;
    }
    GoingOn(r, w, turns, next);
    return None, next;
  }

  lemma GoingIs(r: Run, w: World, turns: seq<Turn>, c: Carried)
    requires Going(r, w, turns, c)
    ensures Legal(r, w, turns) && (turns != [] ==> AfterTurn(r, w, turns) == None)
    ensures c.messages == Base(r, w, turns) && c.usage == Total(turns) && c.steps == Steps(turns) && c.nudged == Nudged(turns)
  {
    hide Legal, AfterTurn, Base, Total, Steps, Nudged;
  }

  lemma GoingOn(r: Run, w: World, turns: seq<Turn>, c: Carried)
    requires Legal(r, w, turns) && (turns != [] ==> AfterTurn(r, w, turns) == None)
    requires c.messages == Base(r, w, turns) && c.usage == Total(turns) && c.steps == Steps(turns) && c.nudged == Nudged(turns)
    ensures Going(r, w, turns, c)
  {
    hide Legal, AfterTurn, Base, Total, Steps, Nudged;
  }

  lemma GoingAtFirst(r: Run, w: World)
    requires Bounded(r.limits)
    ensures Going(r, w, [], Carried([Says(r.user)], NoUsage, 0, false))
  {
    hide *;
    NoTurns(r, w);
    GoingOn(r, w, [], Carried([Says(r.user)], NoUsage, 0, false));
  }

  /** At first nothing is spent. */
  lemma GoingSpends(r: Run, w: World, turns: seq<Turn>, c: Carried)
    requires Going(r, w, turns, c)
    ensures turns == [] ==> Spend(c.usage) == 0
  {
    hide *;
    GoingIs(r, w, turns, c);
    NothingIsLegal(r, w);
    NothingSpent();
  }

  lemma EndedOf(r: Run, w: World, turns: seq<Turn>, ending: Ending)
    requires Legal(r, w, turns) && Verdict(r, w, turns) == Some(ending)
    ensures Ended(r, w, turns, Outcome(turns, ending))
    ensures Outcome(turns, ending) == Result(ending.stop, ending.submitted, Steps(turns), Total(turns), ending.err)
  {
    hide Legal, Verdict, Steps, Total;
  }

  lemma EndedIs(r: Run, w: World, turns: seq<Turn>, result: Result)
    requires Ended(r, w, turns, result)
    ensures Legal(r, w, turns) && Verdict(r, w, turns).Some? && result == Outcome(turns, Verdict(r, w, turns).value)
    ensures result.steps <= |turns| && (result.submitted.Some? <==> result.stop == Submitted)
  {
    StepsOfTurns(turns);
    EndingIsOne(r, w, turns);
    hide Legal, Verdict, Steps, Total;
  }

  /** An ending has a submission exactly when it stops submitted. */
  lemma EndingIsOne(r: Run, w: World, turns: seq<Turn>)
    requires Verdict(r, w, turns).Some?
    ensures Verdict(r, w, turns).value.submitted.Some? <==> Verdict(r, w, turns).value.stop == Submitted
  {
    hide RunCalls, Nudged, Total, LastStep;
  }

  /** Whatever the step came to, the turns are within the step limit, and below it where the run goes on. */
  lemma StillBounded(r: Run, w: World, turns: seq<Turn>, c: Carried, ended: Option<Result>)
    requires match ended case Some(result) => Ended(r, w, turns, result) case None => Going(r, w, turns, c)
    ensures WithDefaults(r.limits).maxSteps >= 1 ==> |turns| <= WithDefaults(r.limits).maxSteps
    ensures WithDefaults(r.limits).maxSteps >= 1 && ended.None? && turns != [] ==> |turns| < WithDefaults(r.limits).maxSteps
  {
    hide *;
    if ended.Some? {
      EndedIs(r, w, turns, ended.value);
    } else {
      GoingIs(r, w, turns, c);
    }
    if WithDefaults(r.limits).maxSteps >= 1 {
      StepsAreBounded(r, w, turns);
    }
  }

  lemma NoTurns(r: Run, w: World)
    requires Bounded(r.limits)
    ensures Legal(r, w, []) && Base(r, w, []) == [Says(r.user)]
    ensures Total([]) == NoUsage && Steps([]) == 0 && !Nudged([])
    ensures WithDefaults(r.limits).maxSteps > 0 || WithDefaults(r.limits).maxTokens <= 0
  {
  }

  lemma StepEnded(r: Run, w: World, turns: seq<Turn>, stop: Stop)
    requires turns != [] ==> AfterTurn(r, w, turns) == None
    requires if w.ended(|turns|) then stop == Canceled
             else stop == OutOfBudget && Spend(Total(turns)) >= WithDefaults(r.limits).maxTokens
    ensures Verdict(r, w, turns) == Some(Ending(stop, None, ""))
    ensures Outcome(turns, Ending(stop, None, "")) == Result(stop, None, Steps(turns), Total(turns), "")
  {
    hide AfterTurn, Total, Steps;
  }

  /** Past the checks, the next turn is what the loop builds. */
  lemma StepBegins(r: Run, w: World, turns: seq<Turn>, turn: Turn)
    requires turns != [] ==> AfterTurn(r, w, turns) == None
    requires !w.ended(|turns|) && Spend(Total(turns)) < WithDefaults(r.limits).maxTokens
    requires turn.answer == StepAnswer(w, |turns|)
    requires turn.forced == (|turns| == WithDefaults(r.limits).maxSteps - 1 ||
               Spend(Total(turns)) * 10 >= WithDefaults(r.limits).maxTokens * 9)
    requires turn.messages == if turn.forced then Force(r, Base(r, w, turns)) else Base(r, w, turns)
    ensures Verdict(r, w, turns) == None && NextTurn(r, w, turns) == turn
  {
    hide AfterTurn, Base, Force, Total, StepAnswer;
  }

  /** One step's request: the conversation, its last message telling the model to submit when it must, and the answer. */
  method Send(r: Run, w: World, turns: seq<Turn>, messages: seq<Message>, total: int) returns (turn: Turn)
    requires turns != [] ==> AfterTurn(r, w, turns) == None
    requires !w.ended(|turns|) && total == Spend(Total(turns)) < WithDefaults(r.limits).maxTokens
    requires messages == Base(r, w, turns)
    ensures Verdict(r, w, turns) == None && turn == NextTurn(r, w, turns)
  {
    hide *;
    var limits := WithDefaults(r.limits);
    var step := |turns|;
    var lastStep := step == limits.maxSteps - 1;
    var forced := lastStep || total * 10 >= limits.maxTokens * 9;
    var sent := messages;
    if forced {
      sent := Force(r, messages);
    }
    var answer := Ask(w, step);
    turn := Turn(sent, forced, answer);
    StepBegins(r, w, turns, turn);
  }

  /** The rest of a step the model answered: nudge it, or run its calls and hand back their results. */
  method Settle(r: Run, w: World, turns: seq<Turn>, nudged: bool)
    returns (ending: Option<Ending>, messages: seq<Message>)
    requires turns != [] && turns[|turns| - 1].answer.Answered?
    requires nudged == Nudged(turns[..|turns| - 1])
    ensures ending == AfterTurn(r, w, turns)
    ensures ending == None ==> messages == Base(r, w, turns)
  {
    var step := |turns| - 1;
    var resp := turns[step].answer.resp;
    var lastStep := step == WithDefaults(r.limits).maxSteps - 1;
    messages := turns[step].messages;
    if resp.toolCalls == [] {
      if lastStep {
        return Some(Ending(MaxSteps, None, "")), messages;
      }
      if nudged {
        return Some(Ending(NoSubmit, None, "")), messages;
      }
      messages := messages + [Message(Assistant, if resp.text != "" then resp.text else r.say.noResponse, [], [])];
      messages := messages + [Says(r.say.nudge)];
      return None, messages;
    }
    var calls := CallAll(r, w, step, resp, turns[step].forced);
    hide RunCalls, Nudged;
    match calls {
    case Accepted(input) =>
      return Some(Ending(Submitted, Some(input), "")), messages;
    case CutOff =>
      return Some(Ending(Truncated, None, r.say.cutOff)), messages;
    case Rejected =>
      return Some(Ending(NoSubmit, None, "")), messages;
    case Results(results) =>
      if lastStep {
        return Some(Ending(MaxSteps, None, "")), messages;
      }
      messages := messages + [Message(Assistant, resp.text, resp.toolCalls, [])];
      messages := messages + [Message(User, "", [], results)];
      return None, messages;
    }
  }

  /** Sending the next turn keeps the exchange legal and the loop's counts right. */
  lemma TakenTurn(r: Run, w: World, before: seq<Turn>, turn: Turn)
    requires Legal(r, w, before) && Verdict(r, w, before) == None && turn == NextTurn(r, w, before)
    ensures
      var turns := before + [turn];
      && Legal(r, w, turns) && turns[|before|] == turn && turns[..|before|] == before
      && Total(turns) == (if turn.answer.Answered? then Total(before).Add(turn.answer.resp.usage) else Total(before))
      && Steps(turns) == Steps(before) + (if turn.answer.Answered? then 1 else 0)
      && (Nudged(turns) <==> Nudged(before) || (turn.answer.Answered? && turn.answer.resp.toolCalls == []))
  {
    LegalAppend(r, w, before, before + [turn]);
    hide Legal, Verdict, NextTurn;
    TurnCounts(before, turn);
  }

  lemma FailedTurn(r: Run, w: World, turns: seq<Turn>)
    requires turns != [] && turns[|turns| - 1].answer.Failed?
    ensures
      var err := turns[|turns| - 1].answer.err;
      var stop := if w.endedAfter(|turns| - 1) then Canceled else if err.Budget? then OutOfBudget else Errored;
      var ending := Ending(stop, None, if stop == Canceled then "" else err.text);
      Verdict(r, w, turns) == Some(ending) && Outcome(turns, ending) == Result(stop, None, Steps(turns), Total(turns), ending.err)
  {
  }

  lemma EndedTurn(r: Run, w: World, turns: seq<Turn>, ending: Ending)
    requires turns != [] && AfterTurn(r, w, turns) == Some(ending)
    ensures Verdict(r, w, turns) == Some(ending)
    ensures ending.submitted.Some? <==> ending.stop == Submitted
    ensures Outcome(turns, ending) == Result(ending.stop, ending.submitted, Steps(turns), Total(turns), ending.err)
  {
    hide RunCalls, Nudged;
  }

  /** The loop over a turn's calls: it breaks at the first call that ends the run. */
  method CallAll(r: Run, w: World, step: nat, resp: StepResponse, forced: bool) returns (calls: Calls)
    ensures calls == RunCalls(r, w, step, resp, 0, forced)
  {
    var results: seq<ToolResult> := [];
    for i := 0 to |resp.toolCalls|
      invariant RunCalls(r, w, step, resp, 0, forced) == After(results, RunCalls(r, w, step, resp, i, forced))
    {
      var one := RunCall(r, w, step, resp, i, forced);
      hide RunCall;
      if !one.Results? {
        return one;
      }
      AfterAfter(results, one.results, RunCalls(r, w, step, resp, i + 1, forced));
      results := results + one.results;
    }
    assert results + [] == results;
    return Results(results);
  }

  /** Results so far, then what the later calls come to. */
  function After(results: seq<ToolResult>, calls: Calls): Calls {
    if calls.Results? then Results(results + calls.results) else calls
  }

  lemma AfterAfter(a: seq<ToolResult>, b: seq<ToolResult>, calls: Calls)
    ensures After(a, After(b, calls)) == After(a + b, calls)
  {
    if calls.Results? {
      assert a + (b + calls.results) == a + b + calls.results;
    }
  }

  lemma LegalAppend(r: Run, w: World, before: seq<Turn>, turns: seq<Turn>)
    requires Legal(r, w, before) && Verdict(r, w, before) == None
    requires turns == before + [NextTurn(r, w, before)]
    ensures Legal(r, w, turns)
  {
    hide Verdict, NextTurn;
    forall k | 0 <= k < |turns|
      ensures Verdict(r, w, turns[..k]) == None && turns[k] == NextTurn(r, w, turns[..k])
    {
      assert turns[..k] == before[..k];
      if k == |before| {
        assert before[..k] == before;
      }
    }
  }

  lemma TurnTotals(before: seq<Turn>, turn: Turn)
    ensures Total(before + [turn]) ==
            if turn.answer.Answered? then Total(before).Add(turn.answer.resp.usage) else Total(before)
  {
    assert (before + [turn])[..|before|] == before;
  }

  lemma TurnSteps(before: seq<Turn>, turn: Turn)
    ensures Steps(before + [turn]) == Steps(before) + if turn.answer.Answered? then 1 else 0
  {
    assert (before + [turn])[..|before|] == before;
  }

  predicate CallsNothing(turn: Turn) {
    turn.answer.Answered? && turn.answer.resp.toolCalls == []
  }

  lemma NudgedIs(turns: seq<Turn>)
    ensures Nudged(turns) <==> exists turn :: turn in turns && CallsNothing(turn)
  {
    if turn :| turn in turns && CallsNothing(turn) {
      var i :| 0 <= i < |turns| && turns[i] == turn;
      assert turns[i].answer.Answered? && turns[i].answer.resp.toolCalls == [];
    }
    if i :| 0 <= i < |turns| && turns[i].answer.Answered? && turns[i].answer.resp.toolCalls == [] {
      assert turns[i] in turns && CallsNothing(turns[i]);
    }
  }

  lemma TurnNudges(before: seq<Turn>, turn: Turn)
    ensures Nudged(before + [turn]) <==> Nudged(before) || CallsNothing(turn)
  {
    hide Nudged, CallsNothing;
    NudgedIs(before);
    NudgedIs(before + [turn]);
    assert forall t :: t in before + [turn] <==> t in before || t == turn;
  }

  lemma TurnCounts(before: seq<Turn>, turn: Turn)
    ensures Total(before + [turn]) ==
            if turn.answer.Answered? then Total(before).Add(turn.answer.resp.usage) else Total(before)
    ensures Steps(before + [turn]) == Steps(before) + if turn.answer.Answered? then 1 else 0
    ensures Nudged(before + [turn]) <==> Nudged(before) || (turn.answer.Answered? && turn.answer.resp.toolCalls == [])
    ensures (before + [turn])[..|before|] == before
  {
    hide Total, Steps, Nudged;
    TurnTotals(before, turn);
    TurnSteps(before, turn);
    TurnNudges(before, turn);
  }
}
