/** Which messages a compaction has summarised, what the model is told of them, and where its summary goes
    (internal/runtime/compaction.go:16-68, internal/agent/message.go:82-160). */
module Summaries {
  import opened Basics
  import opened Messages
  import opened Compaction
  import opened Runtime

  /** The context falls into three parts: the first p messages are kept, those up to d are summarised,
      those from d on are kept. */
  ghost predicate IsDivided(env: Env, msgs: seq<Message>, p: nat, d: nat)
  {
    && msgs != [] && p == (if msgs[0].SystemMessage? then 1 else 0) && p < |msgs|
    && d == p + env.divide(|msgs| - p)
  }

  /** The summarising model is asked once, without tools, about just the messages that will be gone. */
  function Question(env: Env, gone: seq<Message>): ModelCall
  {
    ModelCall(false, [SystemMessage([ContentPart(env.compactionPrompt, "")]),
                      UserMessage([ContentPart(StringifyConversation(gone), "")])])
  }

  /** Its reply decides. A summary takes the place of the messages it was made of: in a user message of
      its own, or at the end of the user message behind them. */
  lemma Summarised<W>(env: Env<W>, w: W, msgs: seq<Message>, p: nat, d: nat)
    requires |msgs| >= 2 && IsDivided(env, msgs, p, d)
    ensures p <= d < |msgs| && msgs == msgs[..p] + msgs[p..d] + msgs[d..]
    ensures var reply := env.complete(w, Question(env, msgs[p..d]));
            var r := DoCompact(env, w, msgs);
            match reply.outcome
            case Err(e) => r == CompactReply(reply.world, [], Err(e))
            case Ok(c) =>
              var summary := [ContentPart(env.explainSummary(c.content), "")];
              var context := if msgs[d].UserMessage?
                             then msgs[..p] + [UserMessage(msgs[d].content + summary)] + msgs[d + 1..]
                             else msgs[..p] + [UserMessage(summary)] + msgs[d..];
              r == CompactReply(reply.world, [CompactionEvent(c.content, context)], Ok(context))
  {
    Divided(env, msgs, p, d);
    var reply := env.complete(w, Question(env, msgs[p..d]));
    if reply.outcome.Ok? {
      CompactionShape(msgs, env.divide, env.explainSummary(reply.outcome.value.content));
    }
  }

  lemma Divided(env: Env, msgs: seq<Message>, p: nat, d: nat)
    requires |msgs| >= 2 && IsDivided(env, msgs, p, d)
    ensures Pre(msgs) == msgs[..p] && Cut(msgs, env.divide) == d && Candidates(msgs, env.divide) == msgs[p..d]
    ensures p <= d < |msgs| && msgs == msgs[..p] + msgs[p..d] + msgs[d..]
  {
  }

  /** One message alone is not compacted, and the model not asked. */
  lemma TooShort<W>(env: Env<W>, w: W, msgs: seq<Message>)
    requires |msgs| <= 1
    ensures DoCompact(env, w, msgs) == CompactReply(w, [], Err(Failure("must be at least one message")))
  {
  }

  // ----- what the model is told ---------------------------------------------------

  lemma {:induction false} TextConcat(a: seq<ContentPart>, b: seq<ContentPart>)
    ensures TextOf(a + b) == TextOf(a) + TextOf(b)
  {
    if a == [] {
      assert a + b == b;
    } else {
      assert (a + b)[1..] == a[1..] + b;
      TextConcat(a[1..], b);
      Associative(a[0].text, TextOf(a[1..]), TextOf(b));
    }
  }

  lemma {:induction false} CallsConcat(a: seq<ToolCall>, b: seq<ToolCall>)
    ensures CallsString(a + b) == CallsString(a) + CallsString(b)
  {
    if a == [] {
      assert a + b == b;
    } else {
      assert (a + b)[1..] == a[1..] + b;
      CallsConcat(a[1..], b);
      Associative("tool:" + a[0].toolName + ", args:" + a[0].arguments + "\n", CallsString(a[1..]), CallsString(b));
    }
  }

  /** Of a conversation the model is told message by message. */
  lemma {:induction false} ToldInOrder(a: seq<Message>, b: seq<Message>)
    ensures StringifyConversation(a + b) == StringifyConversation(a) + StringifyConversation(b)
  {
    if a == [] {
      assert a + b == b;
    } else {
      assert (a + b)[1..] == a[1..] + b;
      ToldInOrder(a[1..], b);
      Associative(MessageString(a[0]), StringifyConversation(a[1..]), StringifyConversation(b));
    }
  }

  /** Of one message it is told who said it, every text, and of an agent message every call. */
  lemma OneMessageTold(m: Message)
    ensures var role := match m
                        case UserMessage(_) => "user"
                        case AgentMessage(_, _) => "agent"
                        case ToolResultMessage(_, _) => "tool"
                        case SystemMessage(_) => "system";
            var said := role + ":\n" + TextOf(m.content) + "\n\n";
            StringifyConversation([m]) ==
            if !m.AgentMessage? then said
            else if m.toolCalls == [] then said + "\n\n"
            else said + ("<tool-calls>" + CallsString(m.toolCalls) + "</tool-calls>") + "\n\n"
  {
    assert [m][1..] == [];
    assert MessageString(m) + "" == MessageString(m);
    var said := RoleName(m) + ":\n" + TextOf(m.content) + "\n\n";
    assert said + "" == said;
  }

  lemma OneCallTold(call: ToolCall, part: ContentPart)
    ensures CallsString([call]) == "tool:" + call.toolName + ", args:" + call.arguments + "\n"
    ensures CallsString([]) == "" && TextOf([]) == "" && TextOf([part]) == part.text
  {
    assert [call][1..] == [] && [part][1..] == [];
    assert part.text + "" == part.text;
  }
}
