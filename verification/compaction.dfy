/** Shortening an overfull context (internal/runtime/compaction.go): the pure part.
    The call to the model and the event are in Runtime.DoCompact. */
module Compaction {
  import opened Basics
  import opened Messages
  import opened Conversation

  /** int(float32(n) * 0.7) with its rounding left open: any cut point that leaves a message behind
      and, from three messages on, takes at least two. */
  type Divide = f: nat -> nat | IsCut(f) witness (n: nat) => 7 * n / 10

  ghost predicate IsCut(f: nat -> nat)
  {
    forall n: nat :: n >= 1 ==> f(n) < n && (n >= 3 ==> 2 <= f(n))
  }

  // ----- rendering the candidates for the summarising model ------------------

  function TextOf(content: seq<ContentPart>): string
  {
    if content == [] then "" else content[0].text + TextOf(content[1..])
  }

  function CallsString(calls: seq<ToolCall>): string
  {
    if calls == [] then ""
    else "tool:" + calls[0].toolName + ", args:" + calls[0].arguments + "\n" + CallsString(calls[1..])
  }

  function RoleName(m: Message): string
  {
    match m
    case UserMessage(_) => "user"
    case AgentMessage(_, _) => "agent"
    case ToolResultMessage(_, _) => "tool"
    case SystemMessage(_) => "system"
  }

  function MessageString(m: Message): string
  {
    var base := RoleName(m) + ":\n" + TextOf(m.content) + "\n\n";
    if m.AgentMessage? then
      base + (if m.toolCalls == [] then "" else "<tool-calls>" + CallsString(m.toolCalls) + "</tool-calls>") + "\n\n"
    else base
  }

  function StringifyConversation(ms: seq<Message>): string
  {
    if ms == [] then "" else MessageString(ms[0]) + StringifyConversation(ms[1..])
  }

  // ----- the cut --------------------------------------------------------------

  /** The leading system message, which is never compacted. */
  function Pre(msgs: seq<Message>): seq<Message>
  {
    if msgs != [] && msgs[0].SystemMessage? then msgs[..1] else []
  }

  function Cut(msgs: seq<Message>, divide: Divide): (d: nat)
    requires |msgs| >= 2
    ensures |Pre(msgs)| <= d < |msgs|
    ensures |msgs| >= |Pre(msgs)| + 3 ==> |Pre(msgs)| + 2 <= d
  {
    |Pre(msgs)| + divide(|msgs| - |Pre(msgs)|)
  }

  /** The messages the summary stands for. */
  function Candidates(msgs: seq<Message>, divide: Divide): seq<Message>
    requires |msgs| >= 2
  {
    msgs[|Pre(msgs)|..Cut(msgs, divide)]
  }

  function Tail(msgs: seq<Message>, divide: Divide): (t: seq<Message>)
    requires |msgs| >= 2
    ensures t != []
  {
    msgs[Cut(msgs, divide)..]
  }

  function SetContent(m: Message, content: seq<ContentPart>): Message
  {
    match m
    case UserMessage(_) => UserMessage(content)
    case AgentMessage(_, calls) => AgentMessage(content, calls)
    case ToolResultMessage(id, _) => ToolResultMessage(id, content)
    case SystemMessage(_) => SystemMessage(content)
  }

  /** Put a message in front of a conversation without two user messages in a row: when the roles
      agree, the new content goes behind the content of the old first message. */
  function RoleSafePushback(ms: seq<Message>, newFirst: Message): seq<Message>
    requires ms != []
  {
    if RoleName(ms[0]) == RoleName(newFirst) then
      [SetContent(ms[0], ms[0].content + newFirst.content)] + ms[1..]
    else
      [newFirst] + ms
  }

  function CompactedContext(msgs: seq<Message>, divide: Divide, summary: string): seq<Message>
    requires |msgs| >= 2
  {
    Pre(msgs) + RoleSafePushback(Tail(msgs, divide), UserMessage(Text(summary)))
  }

  // ----- what compaction keeps -----------------------------------------------

  /** The whole result: system message, one user message that ends in the summary, untouched suffix. */
  lemma CompactionShape(msgs: seq<Message>, divide: Divide, summary: string)
    requires |msgs| >= 2
    ensures var d := Cut(msgs, divide);
            CompactedContext(msgs, divide, summary) ==
            if msgs[d].UserMessage?
            then Pre(msgs) + [UserMessage(msgs[d].content + Text(summary))] + msgs[d + 1..]
            else Pre(msgs) + [UserMessage(Text(summary))] + msgs[d..]
  {
    var d := Cut(msgs, divide);
    assert Tail(msgs, divide)[1..] == msgs[d + 1..];
    var tail, m := Tail(msgs, divide), UserMessage(Text(summary));
    if tail[0].UserMessage? {
      assert RoleSafePushback(tail, m) == [UserMessage(msgs[d].content + Text(summary))] + msgs[d + 1..];
    } else {
      assert RoleName(tail[0]) != "user";
      assert RoleSafePushback(tail, m) == [m] + msgs[d..];
    }
  }

  /** The same, message by message: the first p messages, a user message, and the messages from the cut d,
      of which a user message at d itself is part of the one before. */
  predicate CompactedAt(msgs: seq<Message>, c: seq<Message>, p: nat, d: nat)
  {
    && p <= d < |msgs| && p < |c|
    && |c| == p + |msgs| - d + (if msgs[d].UserMessage? then 0 else 1)
    && (forall k :: 0 <= k < p ==> c[k] == msgs[k])
    && c[p].UserMessage? && (msgs[d].UserMessage? ==> msgs[d].content <= c[p].content)
    && (forall i :: p < i < |c| ==> c[i] == msgs[i + |msgs| - |c|])
  }

  lemma CompactionAt(msgs: seq<Message>, divide: Divide, summary: string)
    requires |msgs| >= 2
    ensures CompactedAt(msgs, CompactedContext(msgs, divide, summary), |Pre(msgs)|, Cut(msgs, divide))
  {
    CompactionShape(msgs, divide, summary);
    var c, d := CompactedContext(msgs, divide, summary), Cut(msgs, divide);
    if msgs[d].UserMessage? {
      SplicedAt(c, Pre(msgs), UserMessage(msgs[d].content + Text(summary)), msgs, d, d + 1);
    } else {
      SplicedAt(c, Pre(msgs), UserMessage(Text(summary)), msgs, d, d);
    }
  }

  lemma SplicedAt(c: seq<Message>, pre: seq<Message>, m: Message, msgs: seq<Message>, d: nat, e: nat)
    requires |pre| <= d < |msgs| && pre == msgs[..|pre|] && m.UserMessage?
    requires if msgs[d].UserMessage? then e == d + 1 && msgs[d].content <= m.content else e == d
    requires c == pre + [m] + msgs[e..]
    ensures CompactedAt(msgs, c, |pre|, d)
  {
  }

  /** For every cut and summary: the system message stays, the first other message is a user message,
      the last message stays last (a user message may gain the summary), and three or more compactable
      messages become strictly fewer. */
  lemma CompactionKeeps(msgs: seq<Message>, divide: Divide, summary: string)
    requires |msgs| >= 2
    ensures var c, p := CompactedContext(msgs, divide, summary), |Pre(msgs)|;
            && Pre(msgs) == Pre(c) <= c
            && p < |c| && c[p].UserMessage?
            && (if Last(msgs).UserMessage? then Last(c).UserMessage? && Last(msgs).content <= Last(c).content
                else Last(c) == Last(msgs))
            && (|msgs| >= p + 3 ==> |c| < |msgs|)
            && |c| <= |msgs| + 1
  {
    CompactionAt(msgs, divide, summary);
    KeptAt(msgs, CompactedContext(msgs, divide, summary), |Pre(msgs)|, Cut(msgs, divide));
  }

  lemma KeptAt(msgs: seq<Message>, c: seq<Message>, p: nat, d: nat)
    requires CompactedAt(msgs, c, p, d) && p == |Pre(msgs)|
    ensures Pre(msgs) == Pre(c) <= c
    ensures if Last(msgs).UserMessage? then Last(c).UserMessage? && Last(msgs).content <= Last(c).content
            else Last(c) == Last(msgs)
  {
    assert |c| - 1 > p ==> c[|c| - 1] == msgs[|msgs| - 1];
  }

  lemma PushbackAnswered(tail: seq<Message>, m: Message)
    requires Answered(tail) && tail != [] && m.UserMessage?
    ensures Answered(RoleSafePushback(tail, m))
  {
    if tail[0].UserMessage? {
      AnsweredReplaceFirst(tail, SetContent(tail[0], tail[0].content + m.content));
    } else {
      AnsweredPrepend([m], tail);
    }
  }

  /** An answered conversation stays answered, wherever the cut falls. */
  lemma CompactionKeepsAnswered(msgs: seq<Message>, divide: Divide, summary: string)
    requires |msgs| >= 2 && Answered(msgs)
    ensures Answered(CompactedContext(msgs, divide, summary))
  {
    AnsweredDrop(msgs, Cut(msgs, divide));
    PushbackAnswered(Tail(msgs, divide), UserMessage(Text(summary)));
    AnsweredPrepend(Pre(msgs), RoleSafePushback(Tail(msgs, divide), UserMessage(Text(summary))));
  }

  /** Compaction in the middle of a turn: the last message is an agent message whose calls are
      still to be answered. It is kept, last, and everything before it is answered. */
  lemma CompactionKeepsPending(msgs: seq<Message>, divide: Divide, summary: string)
    requires |msgs| >= 2 && Answered(Front(msgs)) && Last(msgs).AgentMessage?
    ensures var c := CompactedContext(msgs, divide, summary);
            c != [] && Last(c) == Last(msgs) && Answered(Front(c))
  {
    var d := Cut(msgs, divide);
    CompactionShape(msgs, divide, summary);
    if msgs[d].UserMessage? {
      PendingTail(Pre(msgs) + [UserMessage(msgs[d].content + Text(summary))], msgs, d + 1);
    } else {
      PendingTail(Pre(msgs) + [UserMessage(Text(summary))], msgs, d);
    }
  }

  lemma PendingTail(pre: seq<Message>, msgs: seq<Message>, d: nat)
    requires forall m <- pre :: !m.AgentMessage?
    requires d < |msgs| && Answered(Front(msgs))
    ensures Last(pre + msgs[d..]) == Last(msgs) && Answered(Front(pre + msgs[d..]))
  {
    AnsweredDrop(Front(msgs), d);
    AnsweredPrepend(pre, Front(msgs)[d..]);
    assert Front(pre + msgs[d..]) == pre + Front(msgs)[d..];
  }

  /** The two contexts that are compacted: an answered one after an overflow, and in the middle of a turn
      one that ends in an agent message whose calls are pending. */
  predicate AnsweredOrPending(msgs: seq<Message>)
  {
    Answered(msgs) || (msgs != [] && Answered(Front(msgs)) && Last(msgs).AgentMessage?)
  }

  /** What compaction does not keep: the cut may fall between an agent message and its results,
      which then stand behind the summary with their call gone. The new context has no orphaned result
      exactly when the first kept message is no tool result and no kept one was an orphan before. */
  lemma CompactionOrphans(msgs: seq<Message>, divide: Divide, summary: string)
    requires |msgs| >= 2 && AnsweredOrPending(msgs)
    ensures NoOrphans(CompactedContext(msgs, divide, summary)) <==>
            && !msgs[Cut(msgs, divide)].ToolResultMessage?
            && forall j :: Cut(msgs, divide) <= j < |msgs| ==> HasCall(msgs, j)
  {
    CompactionAt(msgs, divide, summary);
    OrphansAt(msgs, CompactedContext(msgs, divide, summary), |Pre(msgs)|, Cut(msgs, divide));
  }

  lemma OrphansAt(msgs: seq<Message>, c: seq<Message>, p: nat, d: nat)
    requires AnsweredOrPending(msgs)
    requires CompactedAt(msgs, c, p, d) && forall k :: 0 <= k < p ==> msgs[k].SystemMessage?
    ensures NoOrphans(c) <==> !msgs[d].ToolResultMessage? && forall j :: d <= j < |msgs| ==> HasCall(msgs, j)
  {
    assert forall k :: 0 <= k <= p ==> !c[k].ToolResultMessage? && !c[k].AgentMessage?;
    if msgs[d].ToolResultMessage? {
      assert c[p + 1] == msgs[d];
      assert !HasCall(c, p + 1);
    } else {
      if forall j :: d <= j < |msgs| ==> HasCall(msgs, j) {
        forall i | 0 <= i < |c| ensures HasCall(c, i) {
          KeptHasCall(msgs, c, p, d, i);
        }
      }
      if NoOrphans(c) {
        forall j | d <= j < |msgs| ensures HasCall(msgs, j) {
          HadCall(msgs, c, p, d, j);
        }
      }
    }
  }

  /** A tool result behind the cut still has its call behind the cut. */
  lemma KeptHasCall(msgs: seq<Message>, c: seq<Message>, p: nat, d: nat, i: nat)
    requires CompactedAt(msgs, c, p, d) && AnsweredOrPending(msgs) && !msgs[d].ToolResultMessage?
    requires i < |c| && forall k :: 0 <= k <= p ==> !c[k].ToolResultMessage?
    requires forall j :: d <= j < |msgs| ==> HasCall(msgs, j)
    ensures HasCall(c, i)
  {
    if c[i].ToolResultMessage? {
      var j := i + |msgs| - |c|;
      assert c[i] == msgs[j] && HasCall(msgs, j);
      var k :| 0 <= k < j && msgs[k].AgentMessage? && j <= k + |msgs[k].toolCalls|;
      EarlierIsAnswered(msgs, k);
      CallKept(msgs, k, j, d);
      assert c[k + |c| - |msgs|] == msgs[k];
    }
  }

  /** A kept tool result that has its call behind the cut had it before. */
  lemma HadCall(msgs: seq<Message>, c: seq<Message>, p: nat, d: nat, j: nat)
    requires CompactedAt(msgs, c, p, d) && NoOrphans(c) && d <= j < |msgs|
    requires forall k :: 0 <= k <= p ==> !c[k].AgentMessage?
    ensures HasCall(msgs, j)
  {
    var i := j + |c| - |msgs|;
    if msgs[j].ToolResultMessage? {
      assert c[i] == msgs[j] && HasCall(c, i);
      var k :| 0 <= k < i && c[k].AgentMessage? && i <= k + |c[k].toolCalls|;
      assert c[k] == msgs[k + |msgs| - |c|];
    }
  }

  /** Every agent message but a pending last one has its results. */
  lemma EarlierIsAnswered(msgs: seq<Message>, k: nat)
    requires AnsweredOrPending(msgs) && k < |msgs| - 1 && msgs[k].AgentMessage?
    ensures k + |msgs[k].toolCalls| < |msgs|
    ensures Answers(msgs[k + 1..k + 1 + |msgs[k].toolCalls|], msgs[k].toolCalls)
  {
    if Answered(msgs) {
      assert AnsweredAt(msgs, k);
    } else {
      var front := Front(msgs);
      assert front[k] == msgs[k] && AnsweredAt(front, k);
      assert front[k + 1..k + 1 + |msgs[k].toolCalls|] == msgs[k + 1..k + 1 + |msgs[k].toolCalls|];
    }
  }

  /** The block of results after an agent message holds nothing but results, so a cut at a message
      that is no result does not separate a result from its call. */
  lemma CallKept(msgs: seq<Message>, k: nat, i: nat, d: nat)
    requires k < i < |msgs| && msgs[k].AgentMessage? && i <= k + |msgs[k].toolCalls| < |msgs|
    requires Answers(msgs[k + 1..k + 1 + |msgs[k].toolCalls|], msgs[k].toolCalls)
    requires d <= i && !msgs[d].ToolResultMessage?
    ensures d <= k
  {
    var results := msgs[k + 1..k + 1 + |msgs[k].toolCalls|];
    assert forall j :: k < j <= k + |results| ==> msgs[j] == results[j - k - 1];
  }

  const READ := ToolCall("1", "read", "")

  const SEPARABLE := [SystemMessage([]), UserMessage(Text("q")), AgentMessage([], [READ]),
                      ToolResultMessage("1", []), AgentMessage([], [])]

  lemma SeparableIsWellFormed()
    ensures Answered(SEPARABLE) && NoOrphans(SEPARABLE)
  {
    assert HasCall(SEPARABLE, 3) by { assert SEPARABLE[2].AgentMessage?; }
    assert AnsweredAt(SEPARABLE, 2) by { assert SEPARABLE[3..4] == [ToolResultMessage("1", [])]; }
  }

  /** A context in which the cut does separate them. */
  lemma CompactionCanOrphan(divide: Divide)
    requires divide(4) == 2
    ensures Answered(SEPARABLE) && NoOrphans(SEPARABLE)
    ensures !NoOrphans(CompactedContext(SEPARABLE, divide, ""))
  {
    SeparableIsWellFormed();
    CompactionOrphans(SEPARABLE, divide, "");
    assert Cut(SEPARABLE, divide) == 3;
  }
}
