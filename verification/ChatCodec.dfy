/**
  The chat completions wire format as kritika's gateway serves it (internal/model/chat.go) and as its
  adapter speaks it (internal/model/openai.go). JSON itself is a parameter: the wire is the records the
  two sides read and write.
 */
module ChatCodec {
  import opened Prelude
  import opened Conversation

  // ---- The wire ----

  datatype WireRole = SystemRole | DeveloperRole | UserRole | ToolRole | AssistantRole | OtherRole(name: string)

  /** A message's content: absent or null, a string, a list of parts, or JSON that is neither. */
  datatype Content = Null | Text(text: string) | Parts(parts: seq<Part>) | NotText

  datatype Part = Part(kind: string, text: string)

  datatype WireMessage = WireMessage(role: WireRole, content: Content, calls: seq<ToolCall>, callId: string)

  /** tool_choice: absent or null, a mode, a named function, or JSON that is neither. */
  datatype WireChoice = NoChoice | Mode(mode: string) | Function(name: string) | NotAChoice

  datatype WireRequest = WireRequest(
    model: string, messages: seq<WireMessage>, tools: seq<ToolDef>, choice: WireChoice, maxTokens: int, maxCompletionTokens: int)

  datatype WireResponse = WireResponse(
    model: string, content: Content, calls: seq<ToolCall>, finish: string,
    promptTokens: int, completionTokens: int, cachedTokens: int, cacheWriteTokens: int, cost: Option<real>, provider: string)

  const ERROR_PREFIX := "Error: "

  function Or(s: string, default: string): string {
    if s != "" then s else default
  }

  function WireCall(c: ToolCall): ToolCall {
    c.(input := Or(c.input, "{}"))
  }

  function WireCalls(calls: seq<ToolCall>): seq<ToolCall> {
    if calls == [] then [] else [WireCall(calls[0])] + WireCalls(calls[1..])
  }

  // ---- The adapter's side: openAIMessages ----

  function EncodeResult(r: ToolResult): WireMessage {
    WireMessage(ToolRole, Text(if r.isError then ERROR_PREFIX + r.content else r.content), [], r.callId)
  }

  function EncodeResults(results: seq<ToolResult>): seq<WireMessage> {
    if results == [] then [] else EncodeResults(results[..|results| - 1]) + [EncodeResult(results[|results| - 1])]
  }

  function UserText(text: string): WireMessage {
    WireMessage(UserRole, Text(text), [], "")
  }

  /** One message becomes its results, a message each, and then its text. */
  function EncodeMessage(m: Message): seq<WireMessage> {
    if m.role == Assistant then
      [WireMessage(AssistantRole, if m.text != "" then Text(m.text) else Null, WireCalls(m.toolCalls), "")]
    else
      EncodeResults(m.toolResults) + if m.text != "" || m.toolResults == [] then [UserText(m.text)] else []
  }

  function EncodeMessages(messages: seq<Message>): seq<WireMessage> {
    if messages == [] then []
    else EncodeMessages(messages[..|messages| - 1]) + EncodeMessage(messages[|messages| - 1])
  }

  // ---- The gateway's side: DecodeChatRequest ----

  function PartsText(parts: seq<Part>): Option<string> {
    if parts == [] then Some("")
    else if parts[0].kind != "text" then None
    else
      match PartsText(parts[1..])
      case None => None
      case Some(rest) => Some(parts[0].text + rest)
  }

  /** chatText: None for content that cannot be read. */
  function ContentText(c: Content): Option<string> {
    match c
    case Null => Some("")
    case Text(text) => Some(text)
    case Parts(parts) => PartsText(parts)
    case NotText => None
  }

  /** Results still belong to the last message, as does one text, as long as it says nothing yet. */
  predicate Open(messages: seq<Message>) {
    messages != [] &&
    var last := messages[|messages| - 1];
    last.role == User && last.toolResults != [] && last.text == ""
  }

  function DecodeResult(text: string, callId: string): ToolResult {
    if ERROR_PREFIX <= text then ToolResult(callId, text[|ERROR_PREFIX|..], true) else ToolResult(callId, text, false)
  }

  function SetLast(messages: seq<Message>, last: Message): seq<Message>
    requires messages != []
  {
    messages[..|messages| - 1] + [last]
  }

  function AddUserText(messages: seq<Message>, text: string): seq<Message> {
    if Open(messages) then SetLast(messages, messages[|messages| - 1].(text := text))
    else messages + [Message(User, text, [], [])]
  }

  function AddResult(messages: seq<Message>, result: ToolResult): seq<Message> {
    if Open(messages) then
      var last := messages[|messages| - 1];
      SetLast(messages, last.(toolResults := last.toolResults + [result]))
    else messages + [Message(User, "", [], [result])]
  }

  /** What the loop has read: the conversation and the system texts. */
  datatype Reading = Reading(messages: seq<Message>, system: seq<string>)

  /** One message of the request; None for one that cannot be read. */
  function Decode(r: Reading, m: WireMessage): Option<Reading> {
    match ContentText(m.content)
    case None => None
    case Some(text) =>
      match m.role
      case SystemRole => Some(r.(system := r.system + [text]))
      case DeveloperRole => Some(r.(system := r.system + [text]))
      case UserRole => Some(r.(messages := AddUserText(r.messages, text)))
      case ToolRole => Some(r.(messages := AddResult(r.messages, DecodeResult(text, m.callId))))
      case AssistantRole => Some(r.(messages := r.messages + [Message(Assistant, text, m.calls, [])]))
      case OtherRole(_) => None
  }

  /** The loop over `wire`, going on from what has been read. */
  function DecodeAll(start: Reading, wire: seq<WireMessage>): Option<Reading>
    decreases |wire|
  {
    if wire == [] then Some(start)
    else
      match DecodeAll(start, wire[..|wire| - 1])
      case None => None
      case Some(r) => Decode(r, wire[|wire| - 1])
  }

  const NothingRead := Reading([], [])

  function JoinSystem(texts: seq<string>): string {
    if texts == [] then ""
    else if |texts| == 1 then texts[0]
    else texts[0] + "\n\n" + JoinSystem(texts[1..])
  }

  function DecodeChoice(c: WireChoice): Option<ToolChoice> {
    match c
    case NoChoice => Some(Unset)
    case Mode(mode) => if mode == "auto" then Some(Auto) else if mode == "required" then Some(Required) else None
    case Function(name) => if name == "" then None else Some(Named(name))
    case NotAChoice => None
  }

  function DecodeRequest(w: WireRequest): Option<StepRequest> {
    match (DecodeAll(NothingRead, w.messages), DecodeChoice(w.choice))
    case (Some(r), Some(choice)) =>
      Some(StepRequest(w.model, JoinSystem(r.system), r.messages, w.tools, choice, Max(w.maxCompletionTokens, w.maxTokens)))
    case _ => None
  }

  /** DecodeChatRequest: the loop edits the last message in place while it is open. */
  method DecodeChatRequest(w: WireRequest) returns (req: Option<StepRequest>)
    ensures req == DecodeRequest(w)
  {
    hide JoinSystem, DecodeChoice, DecodeResult, ContentText, Max;
    var messages: seq<Message> := [];
    var system: seq<string> := [];
    for i := 0 to |w.messages|
      invariant DecodeAll(NothingRead, w.messages[..i]) == Some(Reading(messages, system))
    {
      assert w.messages[..i + 1][..i] == w.messages[..i];
      var m := w.messages[i];
      var text := ContentText(m.content);
      if text.None? {
        Unreadable(w.messages, i + 1);
        return None;
      }
      var open := Open(messages);
      match m.role {
      case SystemRole => system := system + [text.value];
      case DeveloperRole => system := system + [text.value];
      case UserRole =>
        if open {
          messages := messages[..|messages| - 1] + [messages[|messages| - 1].(text := text.value)];
        } else {
          messages := messages + [Message(User, text.value, [], [])];
        }
      case ToolRole =>
        var result := DecodeResult(text.value, m.callId);
        if open {
          var last := messages[|messages| - 1];
          messages := messages[..|messages| - 1] + [last.(toolResults := last.toolResults + [result])];
        } else {
          messages := messages + [Message(User, "", [], [result])];
        }
      case AssistantRole => messages := messages + [Message(Assistant, text.value, m.calls, [])];
      case OtherRole(_) =>
        Unreadable(w.messages, i + 1);
        return None;
      }
    }
    assert w.messages[..|w.messages|] == w.messages;
    var choice := DecodeChoice(w.choice);
    if choice.None? {
      return None;
    }
    req := Some(StepRequest(
      w.model, JoinSystem(system), messages, w.tools, choice.value, Max(w.maxCompletionTokens, w.maxTokens)));
  }

  lemma {:induction false} Unreadable(wire: seq<WireMessage>, k: nat)
    requires k <= |wire| && DecodeAll(NothingRead, wire[..k]) == None
    ensures DecodeAll(NothingRead, wire) == None
    decreases |wire|
  {
    if k == |wire| {
      assert wire[..k] == wire;
    } else {
      var before := wire[..|wire| - 1];
      assert before[..k] == wire[..k];
      Unreadable(before, k);
    }
  }

  // ---- What can be read ----

  /** A message the gateway can read: of a role it knows, with text, text parts, or no content. */
  ghost predicate Readable(m: WireMessage) {
    && !m.role.OtherRole? && !m.content.NotText?
    && (m.content.Parts? ==> forall p :: p in m.content.parts ==> p.kind == "text")
  }

  predicate ChoiceReadable(c: WireChoice) {
    match c
    case NoChoice => true
    case Mode(mode) => mode == "auto" || mode == "required"
    case Function(name) => name != ""
    case NotAChoice => false
  }

  /** The texts of parts follow each other, and a part of another kind cannot be read. */
  lemma {:induction false} PartsAreJoined(a: seq<Part>, b: seq<Part>)
    ensures PartsText([]) == Some("")
    ensures PartsText(a).Some? <==> forall p :: p in a ==> p.kind == "text"
    ensures |a| == 1 && a[0].kind == "text" ==> PartsText(a) == Some(a[0].text)
    ensures PartsText(a).Some? && PartsText(b).Some? ==> PartsText(a + b) == Some(PartsText(a).value + PartsText(b).value)
    decreases |a|
  {
    if a == [] {
      assert a + b == b;
      if PartsText(b).Some? {
        assert "" + PartsText(b).value == PartsText(b).value;
      }
    } else {
      assert a == [a[0]] + a[1..];
      assert (a + b)[1..] == a[1..] + b;
      PartsAreJoined(a[1..], b);
      assert a[0].text + "" == a[0].text;
      if PartsText(a).Some? && PartsText(b).Some? {
        Assoc(a[0].text, PartsText(a[1..]).value, PartsText(b).value);
      }
    }
  }

  /** System texts are joined by empty lines. */
  lemma {:induction false} SystemIsJoined(a: seq<string>, b: seq<string>)
    ensures JoinSystem([]) == "" && (|a| == 1 ==> JoinSystem(a) == a[0])
    ensures a != [] && b != [] ==> JoinSystem(a + b) == JoinSystem(a) + "\n\n" + JoinSystem(b)
    decreases |a|
  {
    if a != [] && b != [] {
      assert (a + b)[1..] == a[1..] + b;
      if |a| > 1 {
        SystemIsJoined(a[1..], b);
        var first := a[0] + "\n\n";
        Assoc(first, JoinSystem(a[1..]), "\n\n");
        Assoc(first, JoinSystem(a[1..]) + "\n\n", JoinSystem(b));
      } else {
        assert a[1..] + b == b;
      }
    }
  }

  lemma OneReads(r: Reading, m: WireMessage)
    ensures Decode(r, m).Some? <==> Readable(m)
  {
    hide AddUserText, AddResult, DecodeResult, PartsText;
    if m.content.Parts? {
      PartsAreJoined(m.content.parts, []);
    }
  }

  lemma {:induction false} AllRead(start: Reading, wire: seq<WireMessage>)
    ensures DecodeAll(start, wire).Some? <==> forall m :: m in wire ==> Readable(m)
    decreases |wire|
  {
    hide Decode, Readable;
    if wire != [] {
      var before, last := wire[..|wire| - 1], wire[|wire| - 1];
      assert wire == before + [last];
      AllRead(start, before);
      if DecodeAll(start, before).Some? {
        OneReads(DecodeAll(start, before).value, last);
      }
    }
  }

  /** A request is refused exactly when a message or the choice of tools cannot be read. */
  lemma DecodesIff(w: WireRequest)
    ensures DecodeRequest(w).Some? <==> (forall m :: m in w.messages ==> Readable(m)) && ChoiceReadable(w.choice)
  {
    hide DecodeAll, Readable, JoinSystem, Max;
    AllRead(NothingRead, w.messages);
  }

  /** Where the system texts stand in a request: in messages of either role that gives orders. */
  function GatheredTexts(wire: seq<WireMessage>): seq<string> {
    if wire == [] then []
    else
      var last := wire[|wire| - 1];
      GatheredTexts(wire[..|wire| - 1]) +
      if last.role in {SystemRole, DeveloperRole} && ContentText(last.content).Some? then [ContentText(last.content).value] else []
  }

  predicate Talks(m: WireMessage) {
    m.role !in {SystemRole, DeveloperRole}
  }

  function Talk(wire: seq<WireMessage>): seq<WireMessage> {
    if wire == [] then []
    else
      var last := wire[|wire| - 1];
      Talk(wire[..|wire| - 1]) + if Talks(last) then [last] else []
  }

  lemma TalkSnoc(wire: seq<WireMessage>, m: WireMessage)
    ensures Talk(wire + [m]) == Talk(wire) + if Talks(m) then [m] else []
  {
    assert (wire + [m])[..|wire|] == wire;
  }

  lemma DecodeSnoc(start: Reading, wire: seq<WireMessage>, m: WireMessage)
    requires DecodeAll(start, wire).Some?
    ensures DecodeAll(start, wire + [m]) == Decode(DecodeAll(start, wire).value, m)
  {
    hide Decode;
    assert (wire + [m])[..|wire|] == wire;
  }

  lemma DecodesAside(r: Reading, q: Reading, m: WireMessage)
    requires Decode(r, m).Some? && r.messages == q.messages && q.system == []
    ensures
      var text := ContentText(m.content);
      && text.Some?
      && Decode(r, m).value.system == r.system + (if Talks(m) then [] else [text.value])
      && (if Talks(m) then Decode(q, m) == Some(Reading(Decode(r, m).value.messages, []))
          else Decode(r, m).value.messages == r.messages)
  {
    hide AddUserText, AddResult, DecodeResult, ContentText;
  }

  /** System texts are gathered in order, and the conversation is what the other messages alone would give. */
  lemma {:induction false} SystemIsSetAside(wire: seq<WireMessage>)
    requires DecodeAll(NothingRead, wire).Some?
    ensures
      var r := DecodeAll(NothingRead, wire).value;
      r.system == GatheredTexts(wire) && DecodeAll(NothingRead, Talk(wire)) == Some(Reading(r.messages, []))
    decreases |wire|
  {
    hide Decode, ContentText, Talks;
    if wire != [] {
      var before, last := wire[..|wire| - 1], wire[|wire| - 1];
      assert wire == before + [last];
      SystemIsSetAside(before);
      var r := DecodeAll(NothingRead, before).value;
      DecodesAside(r, Reading(r.messages, []), last);
      TalkSnoc(before, last);
      TalksIs(last);
      assert Talk(before) + [] == Talk(before) && r.system + [] == r.system;
      if Talks(last) {
        DecodeSnoc(NothingRead, Talk(before), last);
      }
    }
  }

  lemma TalksIs(m: WireMessage)
    ensures Talks(m) <==> m.role !in {SystemRole, DeveloperRole}
  {
  }

  // ---- The adapter's side: params ----

  function EncodeChoice(req: StepRequest): WireChoice {
    if req.tools == [] then NoChoice
    else
      match req.choice
      case Required => Mode("required")
      case Named(name) => Function(name)
      case _ => Mode("auto")
  }

  function SystemMessages(system: string): seq<WireMessage> {
    if system != "" then [WireMessage(SystemRole, Text(system), [], "")] else []
  }

  /** params, with the model the attempt sets. OpenRouter has its own field for the answer's bound. */
  function EncodeRequest(req: StepRequest, openRouter: bool): WireRequest {
    var bound := Max(req.maxTokens, 0);
    WireRequest(
      req.model, SystemMessages(req.system) + EncodeMessages(req.messages), req.tools, EncodeChoice(req),
      if openRouter then bound else 0, if openRouter then 0 else bound)
  }

  /** A bound above zero stands in the one field the provider documents; no other bound is sent. */
  predicate Bounded(req: StepRequest, openRouter: bool, w: WireRequest) {
    if req.maxTokens <= 0 then w.maxTokens == 0 && w.maxCompletionTokens == 0
    else if openRouter then w.maxTokens == req.maxTokens && w.maxCompletionTokens == 0
    else w.maxTokens == 0 && w.maxCompletionTokens == req.maxTokens
  }

  method EncodeParams(req: StepRequest, openRouter: bool) returns (w: WireRequest)
    ensures w == EncodeRequest(req, openRouter)
    ensures Bounded(req, openRouter, w)
  {
    var messages: seq<WireMessage> := [];
    if req.system != "" {
      messages := messages + [WireMessage(SystemRole, Text(req.system), [], "")];
    }
    assert messages == SystemMessages(req.system) + EncodeMessages([]);
    assert req.messages[..0] == [];
    for i := 0 to |req.messages|
      invariant messages == SystemMessages(req.system) + EncodeMessages(req.messages[..i])
    {
      hide *;
      var one := OpenAIMessages(req.messages[i]);
      messages := messages + one;
      NextEncoded(req.messages, i);
      Assoc(SystemMessages(req.system), EncodeMessages(req.messages[..i]), one);
    }
    assert req.messages[..|req.messages|] == req.messages;
    var bound := Max(req.maxTokens, 0);
    w := WireRequest(
      req.model, messages, req.tools, EncodeChoice(req), if openRouter then bound else 0, if openRouter then 0 else bound);
  }

  lemma NextEncoded(messages: seq<Message>, i: nat)
    requires i < |messages|
    ensures EncodeMessages(messages[..i + 1]) == EncodeMessages(messages[..i]) + EncodeMessage(messages[i])
  {
    assert messages[..i + 1][..i] == messages[..i];
  }

  /** A call goes out as it is, with an empty object for input it does not have. */
  predicate CallWired(c: ToolCall, w: ToolCall) {
    w.id == c.id && w.name == c.name && w.input == (if c.input == "" then "{}" else c.input)
  }

  /** A result goes out as a tool message of its own, a failure with the prefix before it. */
  predicate ResultWired(r: ToolResult, w: WireMessage) {
    && w.role == ToolRole && w.callId == r.callId && w.calls == []
    && w.content == Text((if r.isError then "Error: " else "") + r.content)
  }

  /** What one message is on the wire: the results in order, a message each, ahead of the text. */
  ghost predicate Wired(m: Message, out: seq<WireMessage>) {
    if m.role == Assistant then
      && |out| == 1 && out[0].role == AssistantRole
      && out[0].content == (if m.text == "" then Null else Text(m.text))
      && |out[0].calls| == |m.toolCalls|
      && (forall k :: 0 <= k < |m.toolCalls| ==> CallWired(m.toolCalls[k], out[0].calls[k]))
    else
      var n := |m.toolResults|;
      && |out| == n + (if m.text == "" && n > 0 then 0 else 1)
      && (forall k :: 0 <= k < n ==> ResultWired(m.toolResults[k], out[k]))
      && (|out| > n ==> out[n].role == UserRole && out[n].content == Text(m.text))
  }

  lemma {:induction false} CallsWired(calls: seq<ToolCall>, k: nat)
    requires k < |calls|
    ensures |WireCalls(calls)| == |calls| && CallWired(calls[k], WireCalls(calls)[k])
    decreases |calls|
  {
    if |calls| > 1 {
      CallsWired(calls[1..], if k == 0 then 0 else k - 1);
    }
  }

  lemma {:induction false} ResultsWired(results: seq<ToolResult>, k: nat)
    requires k < |results|
    ensures |EncodeResults(results)| == |results| && ResultWired(results[k], EncodeResults(results)[k])
    decreases |results|
  {
    var before, last := results[..|results| - 1], results[|results| - 1];
    OneResultWired(last);
    if before != [] {
      ResultsWired(before, if k == |before| then 0 else k);
    }
  }

  lemma OneResultWired(r: ToolResult)
    ensures ResultWired(r, EncodeResult(r))
  {
    assert "" + r.content == r.content;
  }

  lemma MessageWired(m: Message)
    ensures Wired(m, EncodeMessage(m))
  {
    hide EncodeResult, EncodeResults, ResultWired, CallWired, WireCalls;
    if m.role == Assistant {
      assert |WireCalls(m.toolCalls)| == |m.toolCalls| by {
        NothingWired();
        if m.toolCalls != [] {
          CallsWired(m.toolCalls, 0);
        }
      }
      forall k | 0 <= k < |m.toolCalls| ensures CallWired(m.toolCalls[k], WireCalls(m.toolCalls)[k]) {
        CallsWired(m.toolCalls, k);
      }
    } else {
      assert |EncodeResults(m.toolResults)| == |m.toolResults| by {
        NothingWired();
        if m.toolResults != [] {
          ResultsWired(m.toolResults, 0);
        }
      }
      forall k | 0 <= k < |m.toolResults| ensures ResultWired(m.toolResults[k], EncodeResults(m.toolResults)[k]) {
        ResultsWired(m.toolResults, k);
      }
    }
  }

  lemma NothingWired()
    ensures WireCalls([]) == [] && EncodeResults([]) == []
  {
  }

  method OpenAIMessages(m: Message) returns (out: seq<WireMessage>)
    ensures out == EncodeMessage(m)
    ensures Wired(m, out)
  {
    hide Wired, EncodeResult, WireCalls;
    MessageWired(m);
    if m.role == Assistant {
      return [WireMessage(AssistantRole, if m.text != "" then Text(m.text) else Null, WireCalls(m.toolCalls), "")];
    }
    out := [];
    for i := 0 to |m.toolResults|
      invariant out == EncodeResults(m.toolResults[..i])
    {
      assert m.toolResults[..i + 1][..i] == m.toolResults[..i];
      out := out + [EncodeResult(m.toolResults[i])];
    }
    assert m.toolResults[..|m.toolResults|] == m.toolResults;
    if m.text != "" || m.toolResults == [] {
      out := out + [UserText(m.text)];
    }
  }

  // ---- Decoding what was encoded ----

  /** A result as the other side reads it. */
  function Read(r: ToolResult): ToolResult {
    DecodeResult(if r.isError then ERROR_PREFIX + r.content else r.content, r.callId)
  }

  function ReadAll(results: seq<ToolResult>): seq<ToolResult> {
    if results == [] then [] else ReadAll(results[..|results| - 1]) + [Read(results[|results| - 1])]
  }

  /** A successful output that reads like a failure. */
  predicate Masquerades(r: ToolResult) {
    !r.isError && ERROR_PREFIX <= r.content
  }

  lemma ReadIsIdentityIff(r: ToolResult)
    ensures Read(r) == r <==> !Masquerades(r)
  {
    if r.isError {
      assert (ERROR_PREFIX + r.content)[|ERROR_PREFIX|..] == r.content;
    }
  }

  /** Encoding the result read gives back the wire message, masquerading or not. */
  lemma ReadEncodes(text: string, callId: string)
    ensures EncodeResult(DecodeResult(text, callId)) == WireMessage(ToolRole, Text(text), [], callId)
  {
    if ERROR_PREFIX <= text {
      assert ERROR_PREFIX + text[|ERROR_PREFIX|..] == text;
    }
  }

  /** Two lists equal up to their last elements are equal exactly when those are. */
  lemma SnocEqual<T>(a: seq<T>, x: T, b: seq<T>, y: T)
    requires |a| == |b|
    ensures a + [x] == b + [y] <==> a == b && x == y
  {
    assert (a + [x])[..|a|] == a && (b + [y])[..|b|] == b && (a + [x])[|a|] == x && (b + [y])[|b|] == y;
  }

  predicate AnyMasquerades(results: seq<ToolResult>) {
    exists r :: r in results && Masquerades(r)
  }

  lemma MasqueradesSnoc(before: seq<ToolResult>, last: ToolResult)
    ensures AnyMasquerades(before + [last]) <==> AnyMasquerades(before) || Masquerades(last)
  {
    hide Masquerades;
    assert forall r :: r in before + [last] <==> r in before || r == last;
  }

  lemma ReadAllOf(before: seq<ToolResult>, last: ToolResult)
    ensures ReadAll(before + [last]) == ReadAll(before) + [Read(last)]
  {
    hide Read;
    assert (before + [last])[..|before|] == before;
  }

  lemma NoneRead()
    ensures ReadAll([]) == [] && !AnyMasquerades([])
  {
  }

  lemma {:induction false} ReadAllIsIdentity(results: seq<ToolResult>)
    ensures |ReadAll(results)| == |results|
    ensures ReadAll(results) == results <==> !AnyMasquerades(results)
    decreases |results|
  {
    hide *;
    if results == [] {
      NoneRead();
    } else {
      var before, last := results[..|results| - 1], results[|results| - 1];
      assert results == before + [last];
      ReadAllIsIdentity(before);
      ReadIsIdentityIff(last);
      ReadAllOf(before, last);
      MasqueradesSnoc(before, last);
      SnocEqual(ReadAll(before), Read(last), before, last);
    }
  }

  lemma ReadAllIsIdentityIff(results: seq<ToolResult>)
    ensures |ReadAll(results)| == |results|
    ensures ReadAll(results) == results <==> forall r :: r in results ==> !Masquerades(r)
  {
    hide ReadAll, Masquerades;
    ReadAllIsIdentity(results);
  }

  lemma {:induction false} DecodeConcat(start: Reading, a: seq<WireMessage>, b: seq<WireMessage>)
    requires DecodeAll(start, a).Some?
    ensures DecodeAll(start, a + b) == DecodeAll(DecodeAll(start, a).value, b)
    decreases |b|
  {
    hide Decode;
    if b == [] {
      assert a + b == a;
    } else {
      assert (a + b)[..|a + b| - 1] == a + b[..|b| - 1];
      DecodeConcat(start, a, b[..|b| - 1]);
    }
  }

  lemma DecodeOne(start: Reading, m: WireMessage)
    ensures DecodeAll(start, [m]) == Decode(start, m)
  {
    assert [m][..0] == [];
  }

  /** What decoding makes of one message of the loop. */
  function Decoded(m: Message): Message {
    if m.role == Assistant then Message(Assistant, m.text, WireCalls(m.toolCalls), [])
    else Message(User, m.text, [], ReadAll(m.toolResults))
  }

  function DecodedAll(messages: seq<Message>): seq<Message> {
    if messages == [] then [] else DecodedAll(messages[..|messages| - 1]) + [Decoded(messages[|messages| - 1])]
  }

  lemma ReadAllSnoc(results: seq<ToolResult>)
    requires results != []
    ensures ReadAll(results) == ReadAll(results[..|results| - 1]) + [Read(results[|results| - 1])]
    ensures |results| == 1 ==> ReadAll(results) == [Read(results[0])] && EncodeResults(results) == [EncodeResult(results[0])]
  {
    if |results| == 1 {
      assert results[..0] == [];
      assert ReadAll(results[..0]) == [] && EncodeResults(results[..0]) == [];
    }
  }

  /** A result's wire message, as the gateway takes it in. */
  lemma ResultTakenIn(r: Reading, result: ToolResult)
    ensures Decode(r, EncodeResult(result)) == Some(r.(messages := AddResult(r.messages, Read(result))))
  {
    hide AddResult, DecodeResult;
  }

  lemma AddToOpen(messages: seq<Message>, read: seq<ToolResult>, result: ToolResult)
    requires read != []
    ensures AddResult(messages + [Message(User, "", [], read)], result) == messages + [Message(User, "", [], read + [result])]
  {
    var open := messages + [Message(User, "", [], read)];
    assert open[..|open| - 1] == messages;
  }

  lemma {:induction false} ResultsDecode(start: Reading, results: seq<ToolResult>)
    requires !Open(start.messages) && results != []
    ensures DecodeAll(start, EncodeResults(results)) ==
            Some(start.(messages := start.messages + [Message(User, "", [], ReadAll(results))]))
    decreases |results|
  {
    hide *;
    var before, last := results[..|results| - 1], results[|results| - 1];
    ReadAllSnoc(results);
    if |results| == 1 {
      DecodeOne(start, EncodeResult(last));
      ResultTakenIn(start, last);
      AddResultClosed(start.messages, Read(last));
    } else {
      ResultsDecode(start, before);
      ReadAllLength(before);
      var mid := start.(messages := start.messages + [Message(User, "", [], ReadAll(before))]);
      ResultsShape(results);
      DecodeConcat(start, EncodeResults(before), [EncodeResult(last)]);
      DecodeOne(mid, EncodeResult(last));
      ResultTakenIn(mid, last);
      AddToOpen(start.messages, ReadAll(before), Read(last));
    }
  }

  lemma {:induction false} ReadAllLength(results: seq<ToolResult>)
    ensures |ReadAll(results)| == |results|
    decreases |results|
  {
    if results != [] {
      ReadAllLength(results[..|results| - 1]);
    }
  }

  lemma UserShape(m: Message)
    requires m.role == User
    ensures m.toolResults == [] ==> EncodeMessage(m) == [UserText(m.text)]
    ensures m.toolResults != [] && m.text == "" ==> EncodeMessage(m) == EncodeResults(m.toolResults)
    ensures m.toolResults != [] && m.text != "" ==> EncodeMessage(m) == EncodeResults(m.toolResults) + [UserText(m.text)]
    ensures Decoded(m) == Message(User, m.text, [], ReadAll(m.toolResults))
    ensures m.toolResults == [] ==> ReadAll(m.toolResults) == []
  {
    if m.toolResults == [] {
      assert EncodeMessage(m) == [UserText(m.text)];
    } else if m.text == "" {
      assert EncodeMessage(m) == EncodeResults(m.toolResults);
    }
  }

  lemma TextDecodes(r: Reading, text: string)
    ensures Decode(r, UserText(text)) == Some(r.(messages := AddUserText(r.messages, text)))
  {
  }

  lemma TextClosesTheMessage(messages: seq<Message>, results: seq<ToolResult>, text: string)
    requires results != []
    ensures AddUserText(messages + [Message(User, "", [], results)], text) == messages + [Message(User, text, [], results)]
  {
    var open := messages + [Message(User, "", [], results)];
    assert open[..|open| - 1] == messages;
  }

  lemma TextStartsAMessage(messages: seq<Message>, text: string)
    requires !Open(messages)
    ensures AddUserText(messages, text) == messages + [Message(User, text, [], [])]
  {
  }

  /** A user message read where none is open becomes one message again. */
  lemma UserMessageDecodes(start: Reading, m: Message)
    requires !Open(start.messages) && m.role == User
    ensures DecodeAll(start, EncodeMessage(m)) == Some(start.(messages := start.messages + [Decoded(m)]))
  {
    hide *;
    UserShape(m);
    if m.toolResults == [] {
      DecodeOne(start, UserText(m.text));
      TextDecodes(start, m.text);
      TextStartsAMessage(start.messages, m.text);
    } else {
      var read := ReadAll(m.toolResults);
      ReadAllLength(m.toolResults);
      ResultsDecode(start, m.toolResults);
      if m.text != "" {
        var mid := start.(messages := start.messages + [Message(User, "", [], read)]);
        DecodeConcat(start, EncodeResults(m.toolResults), [UserText(m.text)]);
        DecodeOne(mid, UserText(m.text));
        TextDecodes(mid, m.text);
        TextClosesTheMessage(start.messages, read, m.text);
      }
    }
  }

  lemma AssistantMessageDecodes(start: Reading, m: Message)
    requires m.role == Assistant
    ensures DecodeAll(start, EncodeMessage(m)) == Some(start.(messages := start.messages + [Decoded(m)]))
  {
    DecodeOne(start, EncodeMessage(m)[0]);
  }

  ghost predicate Alternates(messages: seq<Message>) {
    forall i :: 0 <= i < |messages| ==> messages[i].role == if i % 2 == 0 then User else Assistant
  }

  /** After the assistant spoke, no message is open. */
  lemma AfterAssistantNotOpen(messages: seq<Message>)
    requires messages == [] || messages[|messages| - 1].role == Assistant
    ensures !Open(DecodedAll(messages))
  {
  }

  lemma AlternatesBefore(messages: seq<Message>)
    requires Alternates(messages) && messages != []
    ensures Alternates(messages[..|messages| - 1])
    ensures messages[|messages| - 1].role == User ==>
              |messages| == 1 || messages[..|messages| - 1][|messages| - 2].role == Assistant
  {
  }

  lemma Snocs(messages: seq<Message>)
    requires messages != []
    ensures
      var before, last := messages[..|messages| - 1], messages[|messages| - 1];
      && EncodeMessages(messages) == EncodeMessages(before) + EncodeMessage(last)
      && DecodedAll(messages) == DecodedAll(before) + [Decoded(last)]
  {
  }

  lemma NoMessages(start: Reading)
    requires start.messages == []
    ensures DecodeAll(start, EncodeMessages([])) == Some(start.(messages := DecodedAll([]))) && DecodedAll([]) == []
  {
  }

  lemma {:induction false} AlternatingDecodes(start: Reading, messages: seq<Message>)
    requires Alternates(messages) && start.messages == []
    ensures DecodeAll(start, EncodeMessages(messages)) == Some(start.(messages := DecodedAll(messages)))
    decreases |messages|
  {
    hide *;
    if messages == [] {
      NoMessages(start);
    } else {
      var before, last := messages[..|messages| - 1], messages[|messages| - 1];
      AlternatesBefore(messages);
      AlternatingDecodes(start, before);
      var mid := start.(messages := DecodedAll(before));
      if last.role == User {
        AfterAssistantNotOpen(before);
        UserMessageDecodes(mid, last);
      } else {
        AssistantMessageDecodes(mid, last);
      }
      Snocs(messages);
      DecodeConcat(start, EncodeMessages(before), EncodeMessage(last));
    }
  }

  // ---- The loop's conversations round trip ----

  /** What encoding alone changes: an empty call input becomes an empty object. */
  function Defaulted(messages: seq<Message>): seq<Message> {
    if messages == [] then []
    else
      var last := messages[|messages| - 1];
      Defaulted(messages[..|messages| - 1]) + [last.(toolCalls := WireCalls(last.toolCalls))]
  }

  ghost predicate NoMasquerade(messages: seq<Message>) {
    forall m, r :: m in messages && r in m.toolResults ==> !Masquerades(r)
  }

  lemma DecodedIsDefaultedIff(m: Message)
    requires UserTurn(m) || AssistantTurn(m)
    ensures Decoded(m) == m.(toolCalls := WireCalls(m.toolCalls)) <==> forall r :: r in m.toolResults ==> !Masquerades(r)
  {
    ReadAllIsIdentityIff(m.toolResults);
  }

  lemma {:induction false} DecodedAllIsDefaultedIff(messages: seq<Message>)
    requires forall m :: m in messages ==> UserTurn(m) || AssistantTurn(m)
    ensures |DecodedAll(messages)| == |Defaulted(messages)| == |messages|
    ensures DecodedAll(messages) == Defaulted(messages) <==> NoMasquerade(messages)
    decreases |messages|
  {
    if messages != [] {
      var before, last := messages[..|messages| - 1], messages[|messages| - 1];
      var wired := last.(toolCalls := WireCalls(last.toolCalls));
      assert messages == before + [last];
      DecodedAllIsDefaultedIff(before);
      DecodedIsDefaultedIff(last);
      SnocEqual(DecodedAll(before), Decoded(last), Defaulted(before), wired);
      hide Decoded, Masquerades, UserTurn, AssistantTurn;
      assert forall m :: m in messages <==> m in before || m == last;
    }
  }

  lemma LoopShapeAlternates(messages: seq<Message>)
    requires LoopShape(messages)
    ensures Alternates(messages)
    ensures forall m :: m in messages ==> UserTurn(m) || AssistantTurn(m)
  {
    forall i | 0 <= i < |messages|
      ensures messages[i].role == (if i % 2 == 0 then User else Assistant)
      ensures UserTurn(messages[i]) || AssistantTurn(messages[i])
    {
      assert i % 2 == 0 || i % 2 == 1;
    }
  }

  function HeardChoice(req: StepRequest): ToolChoice {
    if req.tools == [] then Unset else if req.choice == Unset then Auto else req.choice
  }

  /** What the gateway hears of a request: an unset choice is auto, no tools leave none, a negative bound is none. */
  function Heard(req: StepRequest, messages: seq<Message>): StepRequest {
    StepRequest(
      req.model, req.system, messages, req.tools,
      HeardChoice(req), Max(req.maxTokens, 0))
  }

  /** checkRequest: a named choice names a tool. */
  predicate Sendable(req: StepRequest) {
    req.choice.Named? ==> req.choice.name != ""
  }

  function SystemTexts(system: string): seq<string> {
    if system == "" then [] else [system]
  }

  lemma SystemDecodes(system: string)
    ensures DecodeAll(NothingRead, SystemMessages(system)) == Some(Reading([], SystemTexts(system)))
  {
    if system != "" {
      DecodeOne(NothingRead, WireMessage(SystemRole, Text(system), [], ""));
      assert [] + [system] == [system];
    }
  }

  lemma AllDecodes(system: string, messages: seq<Message>)
    requires Alternates(messages)
    ensures DecodeAll(NothingRead, SystemMessages(system) + EncodeMessages(messages)) ==
            Some(Reading(DecodedAll(messages), SystemTexts(system)))
  {
    hide *;
    var start := Reading([], SystemTexts(system));
    SystemDecodes(system);
    AlternatingDecodes(start, messages);
    DecodeConcat(NothingRead, SystemMessages(system), EncodeMessages(messages));
  }

  lemma SystemJoins(system: string)
    ensures JoinSystem(SystemTexts(system)) == system
  {
  }

  lemma ChoiceDecodes(req: StepRequest)
    requires Sendable(req)
    ensures DecodeChoice(EncodeChoice(req)) == Some(HeardChoice(req))
  {
  }

  lemma RequestDecodes(req: StepRequest, openRouter: bool)
    requires Sendable(req) && Alternates(req.messages)
    ensures DecodeRequest(EncodeRequest(req, openRouter)) == Some(Heard(req, DecodedAll(req.messages)))
  {
    hide EncodeMessages, DecodeAll, DecodedAll, SystemMessages, SystemTexts, JoinSystem, DecodeChoice, EncodeChoice,
         HeardChoice, Alternates;
    AllDecodes(req.system, req.messages);
    SystemJoins(req.system);
    ChoiceDecodes(req);
  }

  /**
    Every request the agent loop sends reaches the gateway as it was, up to an unset choice and empty call
    inputs, if and only if no successful tool output begins with "Error: ".
   */
  lemma LoopRequestsRoundTrip(req: StepRequest, openRouter: bool)
    requires Sendable(req) && LoopShape(req.messages)
    ensures DecodeRequest(EncodeRequest(req, openRouter)) == Some(Heard(req, Defaulted(req.messages))) <==>
            NoMasquerade(req.messages)
  {
    LoopShapeAlternates(req.messages);
    RequestDecodes(req, openRouter);
    DecodedAllIsDefaultedIff(req.messages);
    hide EncodeRequest, DecodeRequest, DecodedAll, Defaulted, NoMasquerade, Alternates;
  }

  // ---- Any conversation, encoded again ----

  predicate WhollyEmpty(m: Message) {
    m.role == User && m.text == "" && m.toolResults == []
  }

  /** A user message that carries results and no text, so that the next user message is read into it. */
  predicate LeavesOpen(m: Message) {
    m.role == User && m.text == "" && m.toolResults != []
  }

  predicate VanishesAt(messages: seq<Message>, i: int) {
    1 <= i < |messages| && WhollyEmpty(messages[i]) && LeavesOpen(messages[i - 1])
  }

  /** A wholly empty message right after one that is still open: reading it leaves no trace. */
  ghost predicate Vanishes(messages: seq<Message>) {
    exists i :: VanishesAt(messages, i)
  }

  /** Whether the reader's last message is open once it has read `messages`. */
  predicate OpenAfter(messages: seq<Message>) {
    messages != [] &&
    var last := messages[|messages| - 1];
    LeavesOpen(last) || (WhollyEmpty(last) && OpenAfter(messages[..|messages| - 1]))
  }

  /** The wholly empty messages read into an open one. */
  function Lost(messages: seq<Message>): nat {
    if messages == [] then 0
    else
      var before := messages[..|messages| - 1];
      Lost(before) + if WhollyEmpty(messages[|messages| - 1]) && OpenAfter(before) then 1 else 0
  }

  lemma {:induction false} OpenLeaver(messages: seq<Message>) returns (k: nat)
    requires OpenAfter(messages)
    ensures k < |messages| && LeavesOpen(messages[k])
    ensures forall j :: k < j < |messages| ==> WhollyEmpty(messages[j])
    decreases |messages|
  {
    var last := |messages| - 1;
    if LeavesOpen(messages[last]) {
      k := last;
    } else {
      k := OpenLeaver(messages[..last]);
    }
  }

  /** Only the last message can vanish without vanishing from what is before it. */
  lemma VanishesSnoc(messages: seq<Message>)
    requires messages != []
    ensures
      var last := |messages| - 1;
      Vanishes(messages) <==> Vanishes(messages[..last]) || VanishesAt(messages, last)
  {
    hide WhollyEmpty, LeavesOpen;
    var last := |messages| - 1;
    var before := messages[..last];
    assert forall i :: i < last ==> (VanishesAt(messages, i) <==> VanishesAt(before, i));
    assert forall i :: VanishesAt(before, i) ==> VanishesAt(messages, i);
    assert forall i :: VanishesAt(messages, i) ==> i == last || VanishesAt(before, i);
  }

  /** A message read into an open one follows a leaver, and what lies between has vanished too. */
  lemma LostLast(messages: seq<Message>)
    requires messages != [] && WhollyEmpty(messages[|messages| - 1]) && OpenAfter(messages[..|messages| - 1])
    ensures Vanishes(messages)
  {
    var k := OpenLeaver(messages[..|messages| - 1]);
    assert VanishesAt(messages, k + 1);
  }

  lemma VanishedLast(messages: seq<Message>)
    requires VanishesAt(messages, |messages| - 1)
    ensures WhollyEmpty(messages[|messages| - 1]) && OpenAfter(messages[..|messages| - 1])
  {
  }

  lemma LostSnoc(messages: seq<Message>)
    requires messages != []
    ensures
      var before := messages[..|messages| - 1];
      Lost(messages) > 0 <==> Lost(before) > 0 || (WhollyEmpty(messages[|messages| - 1]) && OpenAfter(before))
  {
  }

  lemma NothingLost()
    ensures Lost([]) == 0 && !Vanishes([])
  {
  }

  lemma {:induction false} LostIffVanishes(messages: seq<Message>)
    ensures Lost(messages) > 0 <==> Vanishes(messages)
    decreases |messages|
  {
    hide *;
    if messages == [] {
      NothingLost();
    } else {
      var last := |messages| - 1;
      LostIffVanishes(messages[..last]);
      LostSnoc(messages);
      VanishesSnoc(messages);
      if WhollyEmpty(messages[last]) && OpenAfter(messages[..last]) {
        LostLast(messages);
      }
      if VanishesAt(messages, last) {
        VanishedLast(messages);
      }
    }
  }

  // The reader's conversation, encoded, is what it read so far.

  lemma EncodeSnoc(messages: seq<Message>, m: Message)
    ensures EncodeMessages(messages + [m]) == EncodeMessages(messages) + EncodeMessage(m)
  {
    assert (messages + [m])[..|messages|] == messages;
  }

  lemma EncodeResultsSnoc(results: seq<ToolResult>, r: ToolResult)
    ensures EncodeResults(results + [r]) == EncodeResults(results) + [EncodeResult(r)]
  {
    assert (results + [r])[..|results|] == results;
  }

  lemma WithoutText(m: Message)
    requires m.role == User && m.toolResults != [] && m.text == ""
    ensures EncodeMessage(m) == EncodeResults(m.toolResults)
  {
    assert EncodeResults(m.toolResults) + [] == EncodeResults(m.toolResults);
  }

  lemma OneResult(result: ToolResult)
    ensures EncodeMessage(Message(User, "", [], [result])) == [EncodeResult(result)]
  {
    WithoutText(Message(User, "", [], [result]));
    EncodeResultsSnoc([], result);
    assert [] + [result] == [result] && EncodeResults([]) == [];
  }

  lemma AddResultClosed(messages: seq<Message>, result: ToolResult)
    requires !Open(messages)
    ensures AddResult(messages, result) == messages + [Message(User, "", [], [result])]
    ensures Open(AddResult(messages, result))
  {
  }

  lemma OpenLast(messages: seq<Message>)
    requires Open(messages)
    ensures messages != []
    ensures
      var last := messages[|messages| - 1];
      messages == messages[..|messages| - 1] + [last] && last.role == User && last.toolResults != [] && last.text == ""
  {
  }

  /** Reading one tool message adds exactly it to the encoding. */
  lemma ResultReencodes(messages: seq<Message>, wire: WireMessage)
    requires wire.role == ToolRole && wire.content.Text? && wire.calls == []
    ensures
      var next := AddResult(messages, DecodeResult(wire.content.text, wire.callId));
      EncodeMessages(next) == EncodeMessages(messages) + [wire] && Open(next)
  {
    hide *;
    var result := DecodeResult(wire.content.text, wire.callId);
    ReadEncodes(wire.content.text, wire.callId);
    if Open(messages) {
      OpenLast(messages);
      var before, last := messages[..|messages| - 1], messages[|messages| - 1];
      var grown := last.(toolResults := last.toolResults + [result]);
      EncodeResultsSnoc(last.toolResults, result);
      WithoutText(last);
      WithoutText(grown);
      EncodeSnoc(before, last);
      EncodeSnoc(before, grown);
      Assoc(EncodeMessages(before), EncodeMessage(last), [wire]);
      AddResultOpen(messages, result);
    } else {
      OneResult(result);
      AddResultClosed(messages, result);
      EncodeSnoc(messages, Message(User, "", [], [result]));
    }
  }

  lemma AddResultOpen(messages: seq<Message>, result: ToolResult)
    requires Open(messages)
    ensures
      var before, last := messages[..|messages| - 1], messages[|messages| - 1];
      AddResult(messages, result) == before + [last.(toolResults := last.toolResults + [result])]
    ensures Open(AddResult(messages, result))
  {
  }

  /** Reading a user's text adds exactly it, unless it is empty and read into an open message: then it adds nothing. */
  lemma UserTextReencodes(messages: seq<Message>, text: string)
    ensures
      var next := AddUserText(messages, text);
      EncodeMessages(next) == EncodeMessages(messages) + (if Open(messages) && text == "" then [] else [UserText(text)])
    ensures Open(AddUserText(messages, text)) <==> Open(messages) && text == ""
  {
    if Open(messages) {
      var before, last := messages[..|messages| - 1], messages[|messages| - 1];
      var grown := last.(text := text);
      assert messages == before + [last];
      var more := if text == "" then [] else [UserText(text)];
      assert EncodeMessage(last) == EncodeResults(last.toolResults);
      assert EncodeMessage(grown) == EncodeMessage(last) + more;
      hide EncodeMessage, EncodeMessages;
      EncodeSnoc(before, last);
      EncodeSnoc(before, grown);
      Assoc(EncodeMessages(before), EncodeMessage(last), more);
    } else {
      var m := Message(User, text, [], []);
      assert EncodeMessage(m) == [UserText(text)];
      hide EncodeMessage, EncodeMessages;
      EncodeSnoc(messages, m);
    }
  }

  lemma ToolDecodes(r: Reading, wire: WireMessage)
    requires wire.role == ToolRole && wire.content.Text?
    ensures Decode(r, wire) == Some(r.(messages := AddResult(r.messages, DecodeResult(wire.content.text, wire.callId))))
  {
  }

  lemma ResultsShape(results: seq<ToolResult>)
    requires results != []
    ensures EncodeResults(results) == EncodeResults(results[..|results| - 1]) + [EncodeResult(results[|results| - 1])]
    ensures
      var wire := EncodeResult(results[|results| - 1]);
      wire.role == ToolRole && wire.content.Text? && wire.calls == []
  {
  }

  lemma NoResults(r: Reading)
    ensures DecodeAll(r, EncodeResults([])) == Some(r)
    ensures EncodeMessages(r.messages) + EncodeResults([]) == EncodeMessages(r.messages)
  {
  }

  lemma {:induction false} ResultsReencode(r: Reading, results: seq<ToolResult>)
    ensures DecodeAll(r, EncodeResults(results)).Some?
    ensures
      var next := DecodeAll(r, EncodeResults(results)).value;
      && EncodeMessages(next.messages) == EncodeMessages(r.messages) + EncodeResults(results)
      && (Open(next.messages) <==> results != [] || Open(r.messages))
    decreases |results|
  {
    hide *;
    if results == [] {
      NoResults(r);
    } else {
      var before, wire := results[..|results| - 1], EncodeResult(results[|results| - 1]);
      ResultsReencode(r, before);
      var mid := DecodeAll(r, EncodeResults(before)).value;
      ResultsShape(results);
      ToolDecodes(mid, wire);
      ResultReencodes(mid.messages, wire);
      DecodeConcat(r, EncodeResults(before), [wire]);
      DecodeOne(mid, wire);
      Assoc(EncodeMessages(r.messages), EncodeResults(before), [wire]);
    }
  }

  lemma {:induction false} WiredTwice(calls: seq<ToolCall>)
    ensures WireCalls(WireCalls(calls)) == WireCalls(calls)
    decreases |calls|
  {
    if calls != [] {
      WiredTwice(calls[1..]);
      assert WireCalls(calls)[1..] == WireCalls(calls[1..]);
    }
  }

  lemma AssistantReencodes(r: Reading, m: Message)
    requires m.role == Assistant
    ensures DecodeAll(r, EncodeMessage(m)).Some?
    ensures
      var next := DecodeAll(r, EncodeMessage(m)).value;
      EncodeMessages(next.messages) == EncodeMessages(r.messages) + EncodeMessage(m) && !Open(next.messages)
  {
    AssistantMessageDecodes(r, m);
    WiredTwice(m.toolCalls);
    assert EncodeMessage(Decoded(m)) == EncodeMessage(m);
    assert Decoded(m).role == Assistant;
    hide EncodeMessage, EncodeMessages, Decoded, DecodeAll;
    EncodeSnoc(r.messages, Decoded(m));
  }

  lemma UserReencodes(r: Reading, m: Message)
    requires m.role == User
    ensures DecodeAll(r, EncodeMessage(m)).Some?
    ensures
      var next := DecodeAll(r, EncodeMessage(m)).value;
      && EncodeMessages(next.messages) ==
           EncodeMessages(r.messages) + (if WhollyEmpty(m) && Open(r.messages) then [] else EncodeMessage(m))
      && (Open(next.messages) <==> LeavesOpen(m) || (WhollyEmpty(m) && Open(r.messages)))
  {
    var results := EncodeResults(m.toolResults);
    ResultsReencode(r, m.toolResults);
    var mid := DecodeAll(r, results).value;
    if m.text == "" && m.toolResults != [] {
      assert EncodeMessage(m) == results;
    } else {
      var user := UserText(m.text);
      assert Decode(mid, user) == Some(mid.(messages := AddUserText(mid.messages, m.text)));
      UserTextReencodes(mid.messages, m.text);
      assert EncodeMessage(m) == results + [user];
      assert m.toolResults == [] ==> results == [] && mid == r;
      hide Decode, AddUserText, EncodeMessage, EncodeMessages, EncodeResults;
      DecodeConcat(r, results, [user]);
      DecodeOne(mid, user);
      Assoc(EncodeMessages(r.messages), results, [user]);
      assert [] + [user] == [user];
    }
  }

  /** Reading any encoded conversation and encoding it again drops exactly the lost messages. */
  lemma {:induction false} ReencodedSoFar(messages: seq<Message>)
    ensures DecodeAll(NothingRead, EncodeMessages(messages)).Some?
    ensures
      var back := EncodeMessages(DecodeAll(NothingRead, EncodeMessages(messages)).value.messages);
      && |back| + Lost(messages) == |EncodeMessages(messages)|
      && (Lost(messages) == 0 ==> back == EncodeMessages(messages))
    ensures Open(DecodeAll(NothingRead, EncodeMessages(messages)).value.messages) <==> OpenAfter(messages)
    decreases |messages|
  {
    if messages != [] {
      var before, last := messages[..|messages| - 1], messages[|messages| - 1];
      ReencodedSoFar(before);
      Snocs(messages);
      var mid := DecodeAll(NothingRead, EncodeMessages(before)).value;
      if last.role == Assistant {
        AssistantReencodes(mid, last);
      } else {
        UserReencodes(mid, last);
        assert WhollyEmpty(last) ==> |EncodeMessage(last)| == 1;
      }
      hide EncodeMessage, EncodeMessages, DecodeAll, Decode, Open;
      DecodeConcat(NothingRead, EncodeMessages(before), EncodeMessage(last));
    }
  }

  /**
    Re-encoding the decoded form of any conversation reproduces the wire messages, if and only if no wholly
    empty user message follows one that carries tool results and no text.
   */
  lemma ReencodingReproducesTheWire(messages: seq<Message>)
    ensures
      var wire := EncodeMessages(messages);
      DecodeAll(NothingRead, wire).Some? &&
      (EncodeMessages(DecodeAll(NothingRead, wire).value.messages) == wire <==> !Vanishes(messages))
  {
    ReencodedSoFar(messages);
    LostIffVanishes(messages);
  }

  // ---- The response ----

  function FinishOf(stop: StopReason): string {
    match stop
    case EndTurn => "stop"
    case ToolUse => "tool_calls"
    case MaxTokens => "length"
    case _ => "other"
  }

  function StopOf(finish: string): StopReason {
    if finish == "stop" then EndTurn
    else if finish == "tool_calls" || finish == "function_call" then ToolUse
    else if finish == "length" then MaxTokens
    else OtherStop
  }

  /** EncodeChatResponse. */
  function EncodeResponse(resp: StepResponse): WireResponse {
    WireResponse(
      resp.model, if resp.text != "" || resp.toolCalls == [] then Text(resp.text) else Null, resp.toolCalls,
      FinishOf(resp.stop), resp.usage.Prompt(), resp.usage.output, resp.usage.cacheRead, resp.usage.cacheWrite,
      Some(resp.cost), resp.upstream)
  }

  /** A response on the wire: content unless there are only calls, the calls as they are, and the prompt in full. */
  lemma ResponseWired(resp: StepResponse)
    ensures
      var w := EncodeResponse(resp);
      && (w.content == Null <==> resp.text == "" && resp.toolCalls != [])
      && (w.content != Null ==> w.content == Text(resp.text))
      && w.calls == resp.toolCalls && w.completionTokens == resp.usage.output
      && w.promptTokens == resp.usage.input + resp.usage.cacheRead + resp.usage.cacheWrite
  {
  }

  /** The adapter's step, on a response with a choice; `priced` is the cost its own prices give. */
  function DecodeResponse(w: WireResponse, asked: string, reportsModel: bool, priced: real): StepResponse {
    StepResponse(
      if w.content.Text? then w.content.text else "", WireCalls(w.calls), StopOf(w.finish),
      Usage(Max(w.promptTokens - w.cachedTokens - w.cacheWriteTokens, 0), w.cachedTokens, w.cacheWriteTokens, w.completionTokens),
      if w.cost.Some? then w.cost.value else priced,
      if reportsModel && w.model != "" then w.model else asked, w.provider)
  }

  lemma {:induction false} WiredIsSameIff(calls: seq<ToolCall>)
    ensures |WireCalls(calls)| == |calls|
    ensures WireCalls(calls) == calls <==> forall c :: c in calls ==> c.input != ""
    decreases |calls|
  {
    if calls != [] {
      WiredIsSameIff(calls[1..]);
      assert calls == [calls[0]] + calls[1..];
      assert WireCalls(calls)[0] == WireCall(calls[0]) && WireCalls(calls)[1..] == WireCalls(calls[1..]);
    }
  }

  /**
    The gateway's answer reaches the runner whole, if and only if its stop reason has a wire form, its uncached
    prompt is not negative, no call's input is empty, and it names its model or the one asked for has no name
    either. The runner's adapter reports the serving model.
   */
  lemma ResponsesRoundTrip(resp: StepResponse, asked: string, priced: real)
    ensures DecodeResponse(EncodeResponse(resp), asked, true, priced) == resp <==>
            && !resp.stop.Unlisted? && resp.usage.input >= 0 && (resp.model != "" || asked == "")
            && forall c :: c in resp.toolCalls ==> c.input != ""
    ensures resp.stop.Unlisted? ==> DecodeResponse(EncodeResponse(resp), asked, true, priced).stop == OtherStop
  {
    WiredIsSameIff(resp.toolCalls);
    hide WireCalls;
    assert StopOf(FinishOf(resp.stop)) == resp.stop <==> !resp.stop.Unlisted?;
  }
}
