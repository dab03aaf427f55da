/** The stored conversation of one chat (internal/session/session.go). */
module Sessions {
  import opened Messages

  datatype Completion = Completion(
    toolCalls: seq<ToolCall>, content: string, done: bool, inputTokens: int, completionTokens: int)

  function NewAgentMessage(c: Completion): Message
  {
    AgentMessage(Text(c.content), c.toolCalls)
  }

  datatype SessionState = SessionState(messages: seq<Message>, inputTokens: int, outputTokens: int)
  {
    function AddMessages(ms: seq<Message>): SessionState
    {
      this.(messages := PushAll(messages, ms))
    }

    /** The agent message of a completion is appended unmerged. */
    function ApplyCompletion(c: Completion): SessionState
    {
      SessionState(messages + [NewAgentMessage(c)], c.inputTokens, c.completionTokens)
    }

    function OverwriteMessages(tokens: int, ms: seq<Message>): SessionState
    {
      SessionState(ms, tokens, 0)
    }
  }

  class Session {
    var messages: seq<Message>
    var inputTokens: int
    var outputTokens: int

    function State(): SessionState
      reads this
    {
      SessionState(messages, inputTokens, outputTokens)
    }

    constructor ()
      ensures State() == SessionState([], 0, 0)
    {
      messages, inputTokens, outputTokens := [], 0, 0;
    }

    method AddMessages(newMessages: seq<Message>)
      modifies this
      ensures State() == old(State()).AddMessages(newMessages)
      ensures messages == PushAll(old(messages), newMessages)
      ensures inputTokens == old(inputTokens) && outputTokens == old(outputTokens)
    {
      if |newMessages| == 0 {
        return;
      }
      var collapsed := CollapseMatched(newMessages);
      AddMessagesIsPushAll(messages, newMessages);
      ghost var target := PushAll(messages, newMessages);
      if |messages| > 0 {
        match MergeMatchedPair(messages[|messages| - 1], collapsed[0]) {
          case Ok(merged) =>
            messages := messages[|messages| - 1 := merged];
            collapsed := collapsed[1..];
          case Err(_) =>
        }
      }
      messages := messages + collapsed;
      assert messages == target;
    }

    method ApplyCompletion(c: Completion)
      modifies this
      ensures State() == old(State()).ApplyCompletion(c)
      ensures messages == old(messages) + [AgentMessage([ContentPart(c.content, "")], c.toolCalls)]
      ensures inputTokens == c.inputTokens && outputTokens == c.completionTokens
    {
      inputTokens := c.inputTokens;
      outputTokens := c.completionTokens;
      messages := messages + [NewAgentMessage(c)];
    }

    method OverwriteMessages(tokens: int, ms: seq<Message>)
      modifies this
      ensures State() == old(State()).OverwriteMessages(tokens, ms)
      ensures messages == ms && inputTokens == tokens && outputTokens == 0
    {
      inputTokens := tokens;
      outputTokens := 0;
      messages := ms;
    }
  }
}
