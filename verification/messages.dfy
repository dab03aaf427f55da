/** Conversation messages and the merging of neighbours of the same type
    (internal/agent/message.go). Messages are values: the pointers of the original,
    and SetContent through them, are replaced by sequences. */
module Messages {
  import opened Basics

  datatype ContentPart = ContentPart(text: string, imageURL: string)

  datatype ToolCall = ToolCall(id: string, toolName: string, arguments: string)

  datatype ToolResult = ToolResult(id: string, result: seq<ContentPart>)

  datatype Message =
    | UserMessage(content: seq<ContentPart>)
    | AgentMessage(content: seq<ContentPart>, toolCalls: seq<ToolCall>)
    | ToolResultMessage(toolCallID: string, content: seq<ContentPart>)
    | SystemMessage(content: seq<ContentPart>)

  datatype MergeError = DifferentTypes | CantMergeToolResult

  /** NewContent of a string: one text part. */
  function Text(s: string): seq<ContentPart>
  {
    [ContentPart(s, "")]
  }

  function NewToolResultMessage(r: ToolResult): Message
  {
    ToolResultMessage(r.id, r.result)
  }

  // ----- merging ------------------------------------------------------------

  predicate SameType(a: Message, b: Message)
  {
    || (a.UserMessage? && b.UserMessage?)
    || (a.AgentMessage? && b.AgentMessage?)
    || (a.ToolResultMessage? && b.ToolResultMessage?)
    || (a.SystemMessage? && b.SystemMessage?)
  }

  function MergeMatchedPair(a: Message, b: Message): (r: Result<Message, MergeError>)
    ensures r.Ok? <==> SameType(a, b) && !a.ToolResultMessage?
    ensures r.Ok? ==> SameType(r.value, a)
  {
    if !SameType(a, b) then Err(DifferentTypes) else
    match a
    case UserMessage(content) => Ok(UserMessage(content + b.content))
    case AgentMessage(content, calls) => Ok(AgentMessage(content + b.content, calls + b.toolCalls))
    case SystemMessage(content) => Ok(SystemMessage(content + b.content))
    case ToolResultMessage(_, _) => Err(CantMergeToolResult)
  }

  /** Append one message, merging it into the last one when the pair can be merged. */
  function Push(acc: seq<Message>, m: Message): seq<Message>
  {
    if acc == [] then [m] else
    match MergeMatchedPair(Last(acc), m)
    case Ok(merged) => Front(acc) + [merged]
    case Err(_) => acc + [m]
  }

  /** The reference meaning of adding messages: push them one at a time. */
  function PushAll(acc: seq<Message>, ms: seq<Message>): seq<Message>
  {
    if ms == [] then acc else Push(PushAll(acc, Front(ms)), Last(ms))
  }

  function Collapse(ms: seq<Message>): seq<Message>
  {
    PushAll([], ms)
  }

  method CollapseMatched(messages: seq<Message>) returns (merged: seq<Message>)
    ensures merged == Collapse(messages)
    ensures messages != [] ==> merged != []
  {
    if |messages| == 0 {
      return messages;
    }
    merged := [messages[0]];
    assert messages[..1] == [messages[0]];
    assert PushAll([], [messages[0]]) == [messages[0]] by { assert Front([messages[0]]) == []; }
    for i := 1 to |messages|
      invariant merged != []
      invariant merged == Collapse(messages[..i])
    {
      var next := messages[i];
      assert Front(messages[..i + 1]) == messages[..i] && Last(messages[..i + 1]) == next;
      match MergeMatchedPair(Last(merged), next) {
        case Err(_) =>
          merged := merged + [next];
        case Ok(pair) =>
          merged := merged[|merged| - 1 := pair];
      }
    }
    assert messages[..|messages|] == messages;
  }

  /** Session.AddMessages on the message list: collapse the batch, then merge its first message
      into the last stored one when that pair can be merged (session.go:213-231). */
  function Join(stored: seq<Message>, collapsed: seq<Message>): seq<Message>
  {
    if collapsed == [] then stored
    else if stored == [] then collapsed
    else match MergeMatchedPair(Last(stored), collapsed[0])
    case Ok(merged) => Front(stored) + [merged] + collapsed[1..]
    case Err(_) => stored + collapsed
  }

  lemma MergeAssociative(a: Message, b: Message, c: Message)
    ensures MergeMatchedPair(a, b).Ok? && MergeMatchedPair(b, c).Ok? ==>
              && MergeMatchedPair(MergeMatchedPair(a, b).value, c).Ok?
              && MergeMatchedPair(a, MergeMatchedPair(b, c).value).Ok?
              && MergeMatchedPair(MergeMatchedPair(a, b).value, c) == MergeMatchedPair(a, MergeMatchedPair(b, c).value)
  {
    if SameType(a, b) && SameType(b, c) {
      assert (a.content + b.content) + c.content == a.content + (b.content + c.content);
      if a.AgentMessage? {
        assert (a.toolCalls + b.toolCalls) + c.toolCalls == a.toolCalls + (b.toolCalls + c.toolCalls);
      }
    }
  }

  /** Pushing onto the right part of a join is pushing onto the join. */
  lemma PushJoin(s: seq<Message>, c: seq<Message>, m: Message)
    ensures Join(s, Push(c, m)) == Push(Join(s, c), m)
  {
    if s == [] {
    } else if c == [] {
      JoinOne(s, m);
    } else if |c| == 1 {
      assert c == [c[0]];
      PushJoinOne(s, c[0], m);
    } else {
      var f, x := Front(c), Last(c);
      assert c == f + [x];
      JoinSnoc(s, f, x);
      PushLast(f, x, m);
      PushLast(Join(s, f), x, m);
      if MergeMatchedPair(x, m).Ok? {
        JoinSnoc(s, f, MergeMatchedPair(x, m).value);
      } else {
        JoinTwo(s, f, x, m);
      }
    }
  }

  lemma JoinSnoc(s: seq<Message>, c: seq<Message>, x: Message)
    requires s != [] && c != []
    ensures Join(s, c + [x]) == Join(s, c) + [x]
  {
    assert (c + [x])[0] == c[0] && (c + [x])[1..] == c[1..] + [x];
  }

  lemma JoinTwo(s: seq<Message>, c: seq<Message>, x: Message, m: Message)
    requires s != [] && c != []
    ensures Join(s, c + [x, m]) == Join(s, c) + [x, m]
  {
    assert c + [x, m] == (c + [x]) + [m];
    JoinSnoc(s, c, x);
    JoinSnoc(s, c + [x], m);
  }

  lemma PushJoinOne(s: seq<Message>, x: Message, m: Message)
    requires s != []
    ensures Join(s, Push([x], m)) == Push(Join(s, [x]), m)
  {
    JoinOne(s, x);
    PushSingle(x, m);
    if MergeMatchedPair(Last(s), x).Ok? {
      PushJoinMerged(s, x, m);
    } else {
      PushJoinApart(s, x, m);
    }
  }

  lemma PushJoinMerged(s: seq<Message>, x: Message, m: Message)
    requires s != [] && MergeMatchedPair(Last(s), x).Ok?
    ensures Push(Push(s, x), m) ==
            if MergeMatchedPair(x, m).Ok? then Join(s, [MergeMatchedPair(x, m).value]) else Join(s, [x, m])
  {
    var left, right := MergeMatchedPair(Last(s), x).value, MergeMatchedPair(x, m);
    PushLast(Front(s), left, m);
    if right.Ok? {
      MergeAssociative(Last(s), x, m);
      JoinOne(s, right.value);
    } else {
      assert [x, m][1..] == [m];
      assert (Front(s) + [left]) + [m] == Front(s) + [left, m];
    }
  }

  lemma PushJoinApart(s: seq<Message>, x: Message, m: Message)
    requires s != [] && MergeMatchedPair(Last(s), x).Err?
    ensures Push(Push(s, x), m) ==
            if MergeMatchedPair(x, m).Ok? then Join(s, [MergeMatchedPair(x, m).value]) else Join(s, [x, m])
  {
    PushLast(s, x, m);
    if MergeMatchedPair(x, m).Ok? {
      JoinOne(s, MergeMatchedPair(x, m).value);
    }
  }

  lemma PushSingle(x: Message, m: Message)
    ensures Push([x], m) == if MergeMatchedPair(x, m).Ok? then [MergeMatchedPair(x, m).value] else [x, m]
  {
    assert Front([x]) == [];
  }

  lemma JoinOne(s: seq<Message>, x: Message)
    requires s != []
    ensures Join(s, [x]) == Push(s, x)
  {
    assert [x][1..] == [];
  }

  lemma PushLast(front: seq<Message>, x: Message, m: Message)
    ensures Push(front + [x], m) ==
            if MergeMatchedPair(x, m).Ok? then front + [MergeMatchedPair(x, m).value] else front + [x, m]
  {
    assert Front(front + [x]) == front;
  }

  /** AddMessages on any stored conversation is pushing the batch message by message:
      batching is invisible. */
  lemma {:induction false} AddMessagesIsPushAll(s: seq<Message>, batch: seq<Message>)
    ensures Join(s, Collapse(batch)) == PushAll(s, batch)
  {
    if batch != [] {
      AddMessagesIsPushAll(s, Front(batch));
      PushJoin(s, Collapse(Front(batch)), Last(batch));
    }
  }

  lemma {:induction false} PushAllConcat(s: seq<Message>, a: seq<Message>, b: seq<Message>)
    ensures PushAll(s, a + b) == PushAll(PushAll(s, a), b)
  {
    if b == [] {
      assert a + b == a;
    } else {
      FrontOfConcat(a, b);
      PushAllConcat(s, a, Front(b));
    }
  }

  function AddBatches(s: seq<Message>, batches: seq<seq<Message>>): seq<Message>
  {
    if batches == [] then s else Join(AddBatches(s, Front(batches)), Collapse(Last(batches)))
  }

  /** After any sequence of batches an empty session holds the collapse of everything added. */
  lemma {:induction false} AddBatchesIsCollapse(batches: seq<seq<Message>>)
    ensures AddBatches([], batches) == Collapse(Flatten(batches))
  {
    if batches != [] {
      AddBatchesIsCollapse(Front(batches));
      AddMessagesIsPushAll(AddBatches([], Front(batches)), Last(batches));
      PushAllConcat([], Flatten(Front(batches)), Last(batches));
    }
  }

  // ----- what collapsing keeps ----------------------------------------------

  /** No two neighbours could be merged: equal types only between tool results. */
  predicate Separated(ms: seq<Message>)
  {
    forall i :: 0 <= i < |ms| - 1 ==>
      !SameType(ms[i], ms[i + 1]) || ms[i].ToolResultMessage?
  }

  lemma {:induction false} PushAllSeparated(s: seq<Message>, ms: seq<Message>)
    requires Separated(s)
    ensures Separated(PushAll(s, ms))
  {
    if ms != [] {
      PushAllSeparated(s, Front(ms));
    }
  }

  lemma {:induction false} SeparatedIsCollapsed(ms: seq<Message>)
    requires Separated(ms)
    ensures Collapse(ms) == ms
  {
    if ms != [] {
      assert Separated(Front(ms)) by {
        forall i | 0 <= i < |Front(ms)| - 1
          ensures !SameType(Front(ms)[i], Front(ms)[i + 1]) || Front(ms)[i].ToolResultMessage?
        {
          assert Front(ms)[i] == ms[i] && Front(ms)[i + 1] == ms[i + 1];
        }
      }
      SeparatedIsCollapsed(Front(ms));
      if |ms| > 1 {
        assert Last(Front(ms)) == ms[|ms| - 2] && Last(ms) == ms[|ms| - 2 + 1];
      }
    }
  }

  /** Collapse has exactly the separated conversations as its fixed points, and so is idempotent. */
  lemma CollapseFixedPoints(ms: seq<Message>)
    ensures Collapse(ms) == ms <==> Separated(ms)
    ensures Separated(Collapse(ms))
    ensures Collapse(Collapse(ms)) == Collapse(ms)
  {
    PushAllSeparated([], ms);
    SeparatedIsCollapsed(Collapse(ms));
    if Separated(ms) {
      SeparatedIsCollapsed(ms);
    }
  }

  datatype Item =
    | UserPart(part: ContentPart)
    | AgentPart(part: ContentPart)
    | SystemPart(part: ContentPart)
    | Answer(toolCallID: string, content: seq<ContentPart>)

  /** Everything one message says, each content part tagged with who said it; a tool result is one item. */
  function Items(m: Message): seq<Item>
  {
    match m
    case UserMessage(c) => seq(|c|, i requires 0 <= i < |c| => UserPart(c[i]))
    case AgentMessage(c, _) => seq(|c|, i requires 0 <= i < |c| => AgentPart(c[i]))
    case SystemMessage(c) => seq(|c|, i requires 0 <= i < |c| => SystemPart(c[i]))
    case ToolResultMessage(id, c) => [Answer(id, c)]
  }

  function Transcript(ms: seq<Message>): seq<Item>
  {
    if ms == [] then [] else Transcript(Front(ms)) + Items(Last(ms))
  }

  function CallsOf(m: Message): seq<ToolCall>
  {
    if m.AgentMessage? then m.toolCalls else []
  }

  function AllCalls(ms: seq<Message>): seq<ToolCall>
  {
    if ms == [] then [] else AllCalls(Front(ms)) + CallsOf(Last(ms))
  }

  lemma MergeKeepsItems(a: Message, b: Message)
    requires MergeMatchedPair(a, b).Ok?
    ensures Items(MergeMatchedPair(a, b).value) == Items(a) + Items(b)
    ensures CallsOf(MergeMatchedPair(a, b).value) == CallsOf(a) + CallsOf(b)
  {
    assert Items(MergeMatchedPair(a, b).value) == Items(a) + Items(b);
  }

  lemma TranscriptSnoc(ms: seq<Message>, m: Message)
    ensures Transcript(ms + [m]) == Transcript(ms) + Items(m)
    ensures AllCalls(ms + [m]) == AllCalls(ms) + CallsOf(m)
  {
    assert Front(ms + [m]) == ms;
  }

  /** Replacing the last message by one that says what it said and more. */
  lemma TranscriptGrow(acc: seq<Message>, merged: Message, items: seq<Item>, calls: seq<ToolCall>)
    requires acc != [] && Items(merged) == Items(Last(acc)) + items && CallsOf(merged) == CallsOf(Last(acc)) + calls
    ensures Transcript(Front(acc) + [merged]) == Transcript(acc) + items
    ensures AllCalls(Front(acc) + [merged]) == AllCalls(acc) + calls
  {
    TranscriptSnoc(Front(acc), merged);
    Associative(Transcript(Front(acc)), Items(Last(acc)), items);
    Associative(AllCalls(Front(acc)), CallsOf(Last(acc)), calls);
  }

  lemma PushKeepsItems(acc: seq<Message>, m: Message)
    ensures Transcript(Push(acc, m)) == Transcript(acc) + Items(m)
    ensures AllCalls(Push(acc, m)) == AllCalls(acc) + CallsOf(m)
  {
    if acc != [] && MergeMatchedPair(Last(acc), m).Ok? {
      MergeKeepsItems(Last(acc), m);
      TranscriptGrow(acc, MergeMatchedPair(Last(acc), m).value, Items(m), CallsOf(m));
    } else {
      TranscriptSnoc(acc, m);
      assert Push(acc, m) == acc + [m];
    }
  }

  /** Adding messages loses, duplicates and reorders nothing: every content part, tagged with its
      speaker, and every tool result keeps its place, and so does every tool call. */
  lemma {:induction false} PushAllKeepsItems(s: seq<Message>, ms: seq<Message>)
    ensures Transcript(PushAll(s, ms)) == Transcript(s) + Transcript(ms)
    ensures AllCalls(PushAll(s, ms)) == AllCalls(s) + AllCalls(ms)
  {
    if ms != [] {
      PushAllKeepsItems(s, Front(ms));
      PushKeepsItems(PushAll(s, Front(ms)), Last(ms));
    }
  }
}
