/** The simulated generators of lib/ai.ts, which answer from the last user
    message without calling any model.  The pauses between writes are left
    out; the response id and the clock readings are parameters. */
module MockAi {
  import opened Wrappers
  import opened Strings
  import opened Arith
  import opened OpenAi

  const NoUserMessage: string := "No user message found"

  /** `[...messages].reverse().find((m) => m.role === "user")`, as an index:
      the last message whose role is `user`, if there is one. */
  function LastUserIndex(messages: seq<Message>): (r: Option<nat>)
    ensures r.Some? ==> r.value < |messages| && messages[r.value].role == "user"
    ensures r.Some? ==> forall j :: r.value < j < |messages| ==> messages[j].role != "user"
    ensures r.None? <==> forall j :: 0 <= j < |messages| ==> messages[j].role != "user"
  {
    if |messages| == 0 then None
    else if messages[|messages| - 1].role == "user" then Some(|messages| - 1)
    else LastUserIndex(messages[..|messages| - 1])
  }

  const ReplyOpening: string := "I received your message: \""

  /** The reply quotes the message right after its fixed opening. */
  function CompletionReply(content: string): (reply: string)
    ensures |reply| > |ReplyOpening| + |content| && reply[..|ReplyOpening|] == ReplyOpening
    ensures reply[|ReplyOpening|..|ReplyOpening| + |content|] == content
  {
    var reply := ReplyOpening + content + "\". This is a simulated response.";
    assert reply[|ReplyOpening|..|ReplyOpening| + |content|] == content;
    reply
  }

  /** The streamed reply quotes the message the same way. */
  function StreamingReply(content: string): (reply: string)
    ensures |reply| > |ReplyOpening| + |content| && reply[..|ReplyOpening|] == ReplyOpening
    ensures reply[|ReplyOpening|..|ReplyOpening| + |content|] == content
  {
    var reply := ReplyOpening + content + "\". This is a simulated streaming response.";
    assert reply[|ReplyOpening|..|ReplyOpening| + |content|] == content;
    reply
  }

  /** The sum of the content lengths of all messages. */
  function TotalLength(messages: seq<Message>): nat {
    if |messages| == 0 then 0 else TotalLength(messages[..|messages| - 1]) + |messages[|messages| - 1].content|
  }

  datatype Usage = Usage(promptTokens: int, completionTokens: int, totalTokens: int)
  datatype Choice = Choice(index: int, message: Message, finishReason: string)
  datatype Completion = Completion(id: string, objectType: string, created: int, model: string,
                                   choices: seq<Choice>, usage: Usage)

  /** The simplified token count: a quarter of the characters, rounded up,
      for the prompt (all messages), the completion and both together; so
      none is negative, and the total lies between the larger part and the
      sum of the parts (rounding up twice can exceed rounding up once by
      one). */
  function TokenUsage(promptLength: nat, completionLength: nat): (u: Usage)
    ensures 4 * (u.promptTokens - 1) < promptLength <= 4 * u.promptTokens
    ensures 4 * (u.completionTokens - 1) < completionLength <= 4 * u.completionTokens
    ensures u.promptTokens >= 0 && u.completionTokens >= 0
    ensures u.promptTokens <= u.totalTokens && u.completionTokens <= u.totalTokens
    ensures 4 * (u.totalTokens - 1) < promptLength + completionLength <= 4 * u.totalTokens
    ensures u.promptTokens + u.completionTokens - 1 <= u.totalTokens <= u.promptTokens + u.completionTokens
  {
    Usage(CeilDiv(promptLength, 4), CeilDiv(completionLength, 4),
          CeilDiv(promptLength + completionLength, 4))
  }

  /** `generateChatCompletion`: the error when no message is from the user;
      otherwise one assistant choice echoing the last user message, finished
      with `stop`, and the token usage of all messages and the reply. */
  function GenerateChatCompletion(model: string, messages: seq<Message>, id: string, created: int)
    : (r: Result<Completion, string>)
    ensures r.Err? <==> forall j :: 0 <= j < |messages| ==> messages[j].role != "user"
    ensures r.Err? ==> r.error == NoUserMessage
    ensures r.Ok? ==>
      var i := LastUserIndex(messages).value;
      var reply := CompletionReply(messages[i].content);
      && r.value.objectType == "chat.completion"
      && r.value.id == id && r.value.created == created && r.value.model == model
      && r.value.choices == [Choice(0, Message("assistant", reply), "stop")]
      && r.value.usage == TokenUsage(TotalLength(messages), |reply|)
  {
    match LastUserIndex(messages)
    case None => Err(NoUserMessage)
    case Some(i) =>
      var reply := CompletionReply(messages[i].content);
      Ok(Completion(id, "chat.completion", created, model,
                    [Choice(0, Message("assistant", reply), "stop")],
                    TokenUsage(TotalLength(messages), |reply|)))
  }

  /** The words, each followed by one space. */
  function Spaced(words: seq<string>): string {
    if |words| == 0 then "" else Spaced(words[..|words| - 1]) + words[|words| - 1] + " "
  }

  lemma {:induction false} SpacedJoin(words: seq<string>)
    requires |words| > 0
    ensures Spaced(words) == Join(words, " ") + " "
    decreases |words|
  {
    if |words| > 1 {
      SpacedJoin(words[1..]);
      SpacedFirst(words);
    }
  }

  /** `Spaced` read from the front. */
  lemma {:induction false} SpacedFirst(words: seq<string>)
    requires |words| > 0
    ensures Spaced(words) == words[0] + " " + Spaced(words[1..])
    decreases |words|
  {
    if |words| > 1 {
      var init := words[..|words| - 1];
      SpacedFirst(init);
      assert init[0] == words[0];
      assert init[1..] == words[1..][..|words[1..]| - 1];
    } else {
      assert words[1..] == [];
    }
  }

  /** A chunk of the simulated stream. */
  function StreamChunk(id: string, model: string, nowMs: int, delta: Delta, finish: Option<string>): Frame {
    Chunk(id, Seconds(nowMs), model, delta, finish)
  }

  /** Frame 0: the role. */
  function RoleChunk(id: string, model: string, clock: nat -> int): Frame {
    StreamChunk(id, model, clock(0), Delta(Some("assistant"), None), None)
  }

  /** Frame `k + 1`: word `k` and a space. */
  function WordChunk(id: string, model: string, clock: nat -> int, words: seq<string>, k: nat): Frame
    requires k < |words|
  {
    StreamChunk(id, model, clock(k + 1), Delta(None, Some(words[k] + " ")), None)
  }

  /** The stop chunk, frame `n + 1` after `n` words. */
  function FinalChunk(id: string, model: string, clock: nat -> int, n: nat): Frame {
    StreamChunk(id, model, clock(n + 1), EmptyDelta, Some("stop"))
  }

  /** The role chunk and the chunks of the first `k` words. */
  predicate StreamPrefix(frames: seq<Frame>, id: string, model: string, clock: nat -> int,
                         words: seq<string>, k: nat)
    requires k <= |words|
  {
    && |frames| == k + 1
    && frames[0] == RoleChunk(id, model, clock)
    && (forall j :: 0 <= j < k ==> frames[j + 1] == WordChunk(id, model, clock, words, j))
    && StreamedText(frames) == Spaced(words[..k])
  }

  lemma StreamPrefixStep(frames: seq<Frame>, id: string, model: string, clock: nat -> int,
                         words: seq<string>, k: nat)
    requires k < |words| && StreamPrefix(frames, id, model, clock, words, k)
    ensures StreamPrefix(frames + [WordChunk(id, model, clock, words, k)], id, model, clock, words, k + 1)
  {
    var chunk := WordChunk(id, model, clock, words, k);
    StreamedTextAppend(frames, chunk);
    assert words[..k + 1][..k] == words[..k];
    var next := frames + [chunk];
    forall j | 0 <= j < k + 1 ensures next[j + 1] == WordChunk(id, model, clock, words, j) {
      if j < k { assert next[j + 1] == frames[j + 1]; }
    }
  }

  /** The body of the simulated stream for the words of a reply: a role
      chunk, one chunk per word carrying the word and a space, a stop chunk
      and `[DONE]`.  `clock(k)` is `Date.now()` when frame `k` is written.
      What the client reads as content is the words, each followed by a
      space. */
  method StreamWords(model: string, id: string, clock: nat -> int, words: seq<string>)
    returns (frames: seq<Frame>)
    ensures |frames| == |words| + 3
    ensures frames[0] == RoleChunk(id, model, clock)
    ensures forall k :: 0 <= k < |words| ==> frames[k + 1] == WordChunk(id, model, clock, words, k)
    ensures frames[|words| + 1] == FinalChunk(id, model, clock, |words|)
    ensures frames[|words| + 2] == Done
    ensures StreamedText(frames) == Spaced(words)
  {
    frames := [RoleChunk(id, model, clock)];
    assert StreamedText(frames) == StreamedText([]) + "";
    var k := 0;
    while k < |words|
      invariant 0 <= k <= |words|
      invariant StreamPrefix(frames, id, model, clock, words, k)
    {
      StreamPrefixStep(frames, id, model, clock, words, k);
      frames := frames + [StreamChunk(id, model, clock(|frames|), Delta(None, Some(words[k] + " ")), None)];
      k := k + 1;
    }
    assert words[..|words|] == words;
    FinishStream(frames, id, model, clock, words);
    frames := frames + [StreamChunk(id, model, clock(|frames|), EmptyDelta, Some("stop"))] + [Done];
  }

  lemma FinishStream(frames: seq<Frame>, id: string, model: string, clock: nat -> int, words: seq<string>)
    requires StreamPrefix(frames, id, model, clock, words, |words|)
    ensures var all := frames + [FinalChunk(id, model, clock, |words|)] + [Done];
      && |all| == |words| + 3
      && all[0] == RoleChunk(id, model, clock)
      && (forall k :: 0 <= k < |words| ==> all[k + 1] == WordChunk(id, model, clock, words, k))
      && all[|words| + 1] == FinalChunk(id, model, clock, |words|)
      && all[|words| + 2] == Done
      && StreamedText(all) == Spaced(words)
  {
    var stop := FinalChunk(id, model, clock, |words|);
    StreamedTextAppend(frames, stop);
    StreamedTextAppend(frames + [stop], Done);
    assert words[..|words|] == words;
    var all := frames + [stop] + [Done];
    forall k | 0 <= k < |words| ensures all[k + 1] == WordChunk(id, model, clock, words, k) {
      assert all[k + 1] == frames[k + 1];
    }
  }

  /** `generateChatCompletionStream`: the error when no message is from the
      user; otherwise the stream of the reply's space-separated words, whose
      content read together is the whole reply and one trailing space. */
  method GenerateChatCompletionStream(model: string, messages: seq<Message>, id: string, clock: nat -> int)
    returns (r: Result<seq<Frame>, string>)
    ensures r.Err? <==> forall j :: 0 <= j < |messages| ==> messages[j].role != "user"
    ensures r.Err? ==> r.error == NoUserMessage
    ensures r.Ok? ==>
      var words := Split(StreamingReply(messages[LastUserIndex(messages).value].content), " ");
      && |r.value| == |words| + 3
      && r.value[0] == RoleChunk(id, model, clock)
      && (forall k :: 0 <= k < |words| ==> r.value[k + 1] == WordChunk(id, model, clock, words, k))
      && r.value[|words| + 1] == FinalChunk(id, model, clock, |words|)
      && r.value[|words| + 2] == Done
    ensures r.Ok? ==>
      StreamedText(r.value) == StreamingReply(messages[LastUserIndex(messages).value].content) + " "
  {
    var last := LastUserIndex(messages);
    if last.None? {
      return Err(NoUserMessage);
    }
    var responseContent := StreamingReply(messages[last.value].content);
    var words := Split(responseContent, " ");
    var frames := StreamWords(model, id, clock, words);
    SpacedJoin(words);
    JoinSplit(responseContent, " ");
    r := Ok(frames);
  }
}
