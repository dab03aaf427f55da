/** What a well-formed conversation is: calls answered, no answer without its call. */
module Conversation {
  import opened Basics
  import opened Messages

  /** results are the tool results of calls: one each, in call order, with the call's ID. */
  predicate Answers(results: seq<Message>, calls: seq<ToolCall>)
  {
    && |results| == |calls|
    && forall j :: 0 <= j < |calls| ==>
         results[j].ToolResultMessage? && results[j].toolCallID == calls[j].id
  }

  /** If message i is an agent message, exactly one tool result per call follows it at once. */
  predicate AnsweredAt(ms: seq<Message>, i: nat)
    requires i < |ms|
  {
    ms[i].AgentMessage? ==>
      var end := i + 1 + |ms[i].toolCalls|;
      && end <= |ms|
      && Answers(ms[i + 1..end], ms[i].toolCalls)
      && (end < |ms| ==> !ms[end].ToolResultMessage?)
  }

  predicate Answered(ms: seq<Message>)
  {
    forall i :: 0 <= i < |ms| ==> AnsweredAt(ms, i)
  }

  /** Message i, if a tool result, belongs to the block of results after an earlier agent message. */
  predicate HasCall(ms: seq<Message>, i: nat)
    requires i < |ms|
  {
    ms[i].ToolResultMessage? ==>
      exists k :: 0 <= k < i && ms[k].AgentMessage? && i <= k + |ms[k].toolCalls|
  }

  predicate NoOrphans(ms: seq<Message>)
  {
    forall i :: 0 <= i < |ms| ==> HasCall(ms, i)
  }

  lemma AnsweredDrop(ms: seq<Message>, d: nat)
    requires Answered(ms) && d <= |ms|
    ensures Answered(ms[d..])
  {
    var tail := ms[d..];
    forall i | 0 <= i < |tail| ensures AnsweredAt(tail, i) {
      assert AnsweredAt(ms, d + i);
      if tail[i].AgentMessage? {
        var end := i + 1 + |tail[i].toolCalls|;
        assert tail[i + 1..end] == ms[d + i + 1..d + end];
      }
    }
  }

  /** Two answered conversations can be joined when the second does not start with a tool result. */
  lemma AnsweredConcat(a: seq<Message>, b: seq<Message>)
    requires Answered(a) && Answered(b)
    requires b != [] ==> !b[0].ToolResultMessage?
    ensures Answered(a + b)
  {
    var ms := a + b;
    forall i | 0 <= i < |ms| ensures AnsweredAt(ms, i) {
      if i < |a| {
        assert AnsweredAt(a, i);
        if ms[i].AgentMessage? {
          var end := i + 1 + |ms[i].toolCalls|;
          assert ms[i + 1..end] == a[i + 1..end];
        }
      } else {
        assert AnsweredAt(b, i - |a|);
        if ms[i].AgentMessage? {
          var end := i + 1 + |ms[i].toolCalls|;
          assert ms[i + 1..end] == b[i - |a| + 1..end - |a|];
        }
      }
    }
  }

  /** Without agent messages there is nothing to answer; such a prefix may even precede tool results. */
  lemma AnsweredPrepend(a: seq<Message>, b: seq<Message>)
    requires forall m <- a :: !m.AgentMessage?
    requires Answered(b)
    ensures Answered(a + b)
  {
    var ms := a + b;
    forall i | 0 <= i < |ms| ensures AnsweredAt(ms, i) {
      if i < |a| {
        assert a[i] in a;
      } else {
        assert AnsweredAt(b, i - |a|);
        if ms[i].AgentMessage? {
          var end := i + 1 + |ms[i].toolCalls|;
          assert ms[i + 1..end] == b[i - |a| + 1..end - |a|];
        }
      }
    }
  }

  /** One whole turn: an agent message and the results of its calls. */
  lemma AnsweredTurn(agentMsg: Message, results: seq<Message>)
    requires agentMsg.AgentMessage? && Answers(results, agentMsg.toolCalls)
    ensures Answered([agentMsg] + results)
  {
    var ms := [agentMsg] + results;
    assert ms[1..] == results;
    forall i | 0 <= i < |ms| ensures AnsweredAt(ms, i) {
      if i == 0 {
        assert ms[1..1 + |results|] == results;
      } else {
        assert ms[i] == results[i - 1];
      }
    }
  }

  lemma AnsweredExtend(ms: seq<Message>, agentMsg: Message, results: seq<Message>)
    requires Answered(ms) && agentMsg.AgentMessage? && Answers(results, agentMsg.toolCalls)
    ensures Answered(ms + [agentMsg] + results)
  {
    AnsweredTurn(agentMsg, results);
    AnsweredConcat(ms, [agentMsg] + results);
    assert ms + [agentMsg] + results == ms + ([agentMsg] + results);
  }

  /** Appending an agent message keeps the conversation answered only if it calls nothing. */
  lemma AnsweredPending(ms: seq<Message>, agentMsg: Message)
    requires Answered(ms) && agentMsg.AgentMessage?
    ensures Answered(ms + [agentMsg]) <==> agentMsg.toolCalls == []
  {
    var all := ms + [agentMsg];
    if agentMsg.toolCalls == [] {
      AnsweredExtend(ms, agentMsg, []);
      assert all + [] == all;
    } else {
      assert !AnsweredAt(all, |ms|);
    }
  }

  /** Replacing a message that is neither an agent message nor a tool result by another such one. */
  lemma AnsweredReplaceFirst(ms: seq<Message>, m: Message)
    requires Answered(ms) && ms != [] && !m.AgentMessage?
    ensures Answered([m] + ms[1..])
  {
    AnsweredDrop(ms, 1);
    AnsweredPrepend([m], ms[1..]);
  }

  /** Storing a user message keeps a conversation answered, merged or not. */
  lemma AnsweredPushUser(ms: seq<Message>, m: Message)
    requires Answered(ms) && m.UserMessage?
    ensures Answered(Push(ms, m))
  {
    if ms != [] && Last(ms).UserMessage? {
      var merged := Push(ms, m);
      assert merged == Front(ms) + [Last(merged)];
      forall i | 0 <= i < |merged| ensures AnsweredAt(merged, i) {
        assert AnsweredAt(ms, i);
        if merged[i].AgentMessage? {
          var end := i + 1 + |merged[i].toolCalls|;
          assert end <= |ms| - 1;
          assert merged[i + 1..end] == ms[i + 1..end];
        }
      }
    } else {
      AnsweredPrepend([m], []);
      assert [m] + [] == [m];
      AnsweredConcat(ms, [m]);
    }
  }
}
