/** The typed conversation of internal/model/model.go, which the agent loop builds and the wire codec carries. */
module Conversation {
  datatype Role = User | Assistant

  datatype ToolCall = ToolCall(id: string, name: string, input: string)

  datatype ToolResult = ToolResult(callId: string, content: string, isError: bool)

  /** Calls are the assistant's, results the user's; either side may say something besides. */
  datatype Message = Message(role: Role, text: string, toolCalls: seq<ToolCall>, toolResults: seq<ToolResult>)

  datatype Usage = Usage(input: int, cacheRead: int, cacheWrite: int, output: int) {
    /** Prompt tokens, cached or not. */
    function Prompt(): int {
      input + cacheRead + cacheWrite
    }

    function Add(other: Usage): Usage {
      Usage(input + other.input, cacheRead + other.cacheRead, cacheWrite + other.cacheWrite, output + other.output)
    }
  }

  const NoUsage := Usage(0, 0, 0, 0)

  /** What ended a turn; Go's type is a string, so one of no known name is possible. */
  datatype StopReason = EndTurn | ToolUse | MaxTokens | OtherStop | Unlisted(name: string)

  datatype ToolDef = ToolDef(name: string, description: string, schema: string)

  datatype ToolChoice = Unset | Auto | Required | Named(name: string)

  datatype StepRequest = StepRequest(
    model: string, system: string, messages: seq<Message>, tools: seq<ToolDef>, choice: ToolChoice, maxTokens: int)

  datatype StepResponse = StepResponse(
    text: string, toolCalls: seq<ToolCall>, stop: StopReason, usage: Usage, cost: real, model: string, upstream: string)

  function Says(text: string): Message {
    Message(User, text, [], [])
  }

  // ---- The shape of the loop's conversations ----

  /** Each call has one result, in order. */
  ghost predicate Answers(calls: seq<ToolCall>, results: seq<ToolResult>) {
    |results| == |calls| && forall i :: 0 <= i < |calls| ==> results[i].callId == calls[i].id
  }

  ghost predicate UserTurn(m: Message) {
    m.role == User && m.toolCalls == []
  }

  /** An assistant message has text or calls: the conversation never carries one with neither. */
  ghost predicate AssistantTurn(m: Message) {
    m.role == Assistant && m.toolResults == [] && (m.text != "" || m.toolCalls != [])
  }

  /**
    The conversation opens and ends with the user, the sides alternate, and each user message answers
    exactly the calls of the assistant message before it, or says something when it made none.
   */
  ghost predicate LoopShape(messages: seq<Message>) {
    && |messages| % 2 == 1
    && messages[0].toolResults == []
    && (forall i :: 0 <= i < |messages| && i % 2 == 0 ==> UserTurn(messages[i]))
    && (forall i :: 0 <= i < |messages| && i % 2 == 1 ==> AssistantTurn(messages[i]))
    && (forall i :: 0 <= i < |messages| - 1 && i % 2 == 1 ==> Answers(messages[i].toolCalls, messages[i + 1].toolResults))
    && (forall i :: 0 <= i < |messages| - 1 && i % 2 == 1 && messages[i].toolCalls == [] ==> messages[i + 1].text != "")
  }
}
