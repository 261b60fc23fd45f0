/** The agent loop behind the gateway: what internal/agent/loop.go sends is what the wire codec must carry. */
module LoopOverTheWire {
  import opened Prelude
  import opened Conversation
  import AgentLoop
  import ChatCodec

  /**
    In every run of the loop, whatever the model and the tools answer, each step's request is read by the
    gateway as the loop built it, up to an unset choice and empty call inputs, if and only if no successful
    tool output so far begins like a failure.
   */
  lemma EveryStepReachesTheGateway(
    r: AgentLoop.Run, w: AgentLoop.World, turns: seq<AgentLoop.Turn>, k: nat, req: StepRequest, openRouter: bool)
    requires AgentLoop.Legal(r, w, turns) && k < |turns|
    requires req.messages == turns[k].messages && ChatCodec.Sendable(req)
    ensures ChatCodec.DecodeRequest(ChatCodec.EncodeRequest(req, openRouter)) ==
            Some(ChatCodec.Heard(req, ChatCodec.Defaulted(req.messages))) <==>
            ChatCodec.NoMasquerade(turns[k].messages)
  {
    hide *;
    AgentLoop.ConversationsAreWellShaped(r, w, turns, k);
    ChatCodec.LoopRequestsRoundTrip(req, openRouter);
  }

  /** And however often a step is encoded again on its way, it is the same on the wire. */
  lemma EveryStepReencodes(r: AgentLoop.Run, w: AgentLoop.World, turns: seq<AgentLoop.Turn>, k: nat)
    requires AgentLoop.Legal(r, w, turns) && k < |turns|
    ensures
      var wire := ChatCodec.EncodeMessages(turns[k].messages);
      var read := ChatCodec.DecodeAll(ChatCodec.NothingRead, wire);
      read.Some? && ChatCodec.EncodeMessages(read.value.messages) == wire
  {
    hide *;
    var messages := turns[k].messages;
    AgentLoop.ConversationsAreWellShaped(r, w, turns, k);
    ChatCodec.ReencodingReproducesTheWire(messages);
    NothingVanishes(messages);
  }

  /** The sides alternate, so no user message follows another. */
  lemma NothingVanishes(messages: seq<Message>)
    requires LoopShape(messages)
    ensures !ChatCodec.Vanishes(messages)
  {
    ChatCodec.LoopShapeAlternates(messages);
    forall i ensures !ChatCodec.VanishesAt(messages, i) {
      assert 1 <= i < |messages| ==> messages[i].role != messages[i - 1].role;
    }
  }
}
