/** What `processGrokResponse` (route.ts) makes of Grok's answer, as
    functions: each complete line of the upstream body is trimmed, parsed
    and classified; a fragment from a sender becomes a content chunk (and
    an assistant fragment a history entry), a soft stop becomes a stop
    chunk, anything else is skipped.  A run that reads the whole body ends
    with a stop chunk when none was sent, then `[DONE]`. */
module GrokStream {
  import opened Wrappers
  import opened Arith
  import opened Strings
  import opened OpenAi
  import opened LineBuffer
  import opened ChatId
  import Retry

  /** `SENDER_TO_ROLE[sender] || "assistant"` with the table of route.ts,
      where `senderKey` is the property key `sender` converts to. */
  function SenderToRole(senderKey: string): (role: string)
    ensures role == "user" || role == "assistant"
    ensures role == "user" <==> senderKey == "1"
  {
    if senderKey == "1" then "user" else "assistant"
  }

  /** `convertTweetLinks`: its pattern puts an end-of-input anchor `$` in
      front of the literal `#`, so it matches nothing and the message comes
      back unchanged. */
  function ConvertTweetLinks(message: string): (r: string)
    ensures r == message
  {
    message
  }

  const ThinkingOpen: string := "<Thinking>\n"
  const ThinkingClose: string := "\n</Thinking>\n\n"

  /** The `result` object of a parsed line: `sender` is the key text when
      the key is present, `message` is `result.message || ""`. */
  datatype GrokResult = GrokResult(sender: Option<string>, message: string, isThinking: bool, isSoftStop: bool)

  /** A trimmed line as `JSON.parse` and the property reads see it:
      `Malformed` when either throws, `Event(None)` when `result` is
      missing or falsy. */
  datatype GrokEvent = Malformed | Event(result: Option<GrokResult>)

  datatype LineKind = Skip | Fragment(role: string, content: string) | SoftStop

  /** What a parsed `result` makes of its line: a fragment when it has a
      sender, wrapped in the thinking markers when it is thinking; else a
      soft stop when it says so; else nothing. */
  function ResultKind(r: GrokResult): (k: LineKind)
    ensures k.Fragment? <==> r.sender.Some?
    ensures k.SoftStop? <==> r.sender.None? && r.isSoftStop
    ensures k.Fragment? ==> k.role == SenderToRole(r.sender.value)
    ensures k.Fragment? ==> k.content == if r.isThinking then ThinkingOpen + r.message + ThinkingClose else r.message
  {
    if r.sender.Some? then
      var content := ConvertTweetLinks(r.message);
      Fragment(SenderToRole(r.sender.value),
               if r.isThinking then ThinkingOpen + content + ThinkingClose else content)
    else if r.isSoftStop then SoftStop
    else Skip
  }

  /** How one complete line is handled: blank, malformed and result-less
      lines are skipped. */
  function Classify(parse: string -> GrokEvent, raw: string): (k: LineKind)
    ensures !k.Skip? ==>
      && Trim(raw) != "" && parse(Trim(raw)).Event? && parse(Trim(raw)).result.Some?
      && k == ResultKind(parse(Trim(raw)).result.value)
    ensures Trim(raw) == "" || parse(Trim(raw)).Malformed? || parse(Trim(raw)).result.None? ==> k.Skip?
  {
    var line := Trim(raw);
    if line == "" then Skip
    else
      match parse(line)
      case Malformed => Skip
      case Event(None) => Skip
      case Event(Some(r)) => ResultKind(r)
  }

  /** The fields every chunk of one response shares. */
  datatype ChunkContext = ChunkContext(id: string, created: int, model: string)

  function ContentChunk(ctx: ChunkContext, role: string, content: string): Frame {
    Chunk(ctx.id, ctx.created, ctx.model, Delta(Some(role), Some(content)), None)
  }

  function StopChunk(ctx: ChunkContext): Frame {
    Chunk(ctx.id, ctx.created, ctx.model, EmptyDelta, Some("stop"))
  }

  /** The frames written, the history entries pushed and `stopSignalSent`. */
  datatype Progress = Progress(frames: seq<Frame>, pushed: seq<Message>, stopSent: bool)

  const Initial: Progress := Progress([], [], false)

  /** The frames one line writes. */
  function LineFrames(ctx: ChunkContext, kind: LineKind): seq<Frame> {
    match kind
    case Skip => []
    case Fragment(role, content) => [ContentChunk(ctx, role, content)]
    case SoftStop => [StopChunk(ctx)]
  }

  /** The history entries one line pushes: assistant fragments only. */
  function LinePushed(kind: LineKind): seq<Message> {
    if kind.Fragment? && kind.role == "assistant" then [Message("assistant", kind.content)] else []
  }

  /** The progress after a line of the given kind. */
  function Advance(ctx: ChunkContext, p: Progress, kind: LineKind): (q: Progress)
    ensures p.frames <= q.frames && |q.frames| <= |p.frames| + 1
    ensures p.pushed <= q.pushed && |q.pushed| <= |p.pushed| + 1
    ensures q.stopSent <==> p.stopSent || kind.SoftStop?
  {
    Progress(p.frames + LineFrames(ctx, kind), p.pushed + LinePushed(kind), p.stopSent || kind.SoftStop?)
  }

  /** One complete line: at most one frame and one history entry are
      added, and nothing already written changes. */
  function ProcessLine(ctx: ChunkContext, parse: string -> GrokEvent, p: Progress, raw: string): (q: Progress)
    ensures p.frames <= q.frames && |q.frames| <= |p.frames| + 1
    ensures p.pushed <= q.pushed && |q.pushed| <= |p.pushed| + 1
  {
    Advance(ctx, p, Classify(parse, raw))
  }

  /** The lines handled one after another, in order. */
  function ProcessLines(ctx: ChunkContext, parse: string -> GrokEvent, p: Progress, lines: seq<string>)
    : (q: Progress)
    ensures p.frames <= q.frames && |q.frames| <= |p.frames| + |lines|
    ensures p.pushed <= q.pushed
    ensures p.stopSent ==> q.stopSent
    decreases |lines|
  {
    if |lines| == 0 then p else ProcessLines(ctx, parse, ProcessLine(ctx, parse, p, lines[0]), lines[1..])
  }

  /** The upstream body: the decoded chunks `reader.read()` gives, and the
      error it throws after them, if any. */
  datatype Body = Body(chunks: seq<string>, readError: Option<string>)

  /** What `fetch` of the Grok endpoint does: throws, or answers with a
      status, the text `response.text()` would give, the `date` header in
      milliseconds (`None` when absent or empty), the `userChatItemId`
      header and the body (`None` for a null body). */
  datatype Upstream =
    | FetchFailed(message: string)
    | Answered(status: int, text: string, date: Option<int>, userChatItemId: Option<string>, body: Option<Body>)

  const NoBodyMessage: string := "Grok API returned no response body"

  function StatusMessage(status: int, text: string): string {
    "Grok API returned " + DecimalString(status) + ": " + text
  }

  /** `created`: from the `date` header, else from the clock. */
  function CreatedTime(date: Option<int>, nowMs: int): (created: int)
    ensures 1000 * created <= date.GetOr(nowMs) < 1000 * created + 1000
  {
    Seconds(date.GetOr(nowMs))
  }

  /** `headers.get("userChatItemId") || Date.now().toString()`. */
  function GrokIdText(userChatItemId: Option<string>, nowMs: int): (r: string)
    ensures userChatItemId.Some? && userChatItemId.value != "" ==> r == userChatItemId.value
    ensures userChatItemId.None? || userChatItemId.value == "" ==> r == DecimalString(nowMs)
    ensures |r| > 0
  {
    if userChatItemId.Some? && userChatItemId.value != "" then userChatItemId.value else DecimalString(nowMs)
  }

  /** The fields of the response's chunks: a chat id, the creation time
      and the request's model. */
  function Context(sha256: string -> Digest, model: string, date: Option<int>,
                   userChatItemId: Option<string>, nowMs: int): (ctx: ChunkContext)
    ensures ctx.model == model
    ensures |ctx.id| == |Prefix| + 32 && ctx.id[..|Prefix|] == Prefix
  {
    ChunkContext(EncodeChatId(sha256, StringId(GrokIdText(userChatItemId, nowMs))), CreatedTime(date, nowMs), model)
  }

  /** The frames written, the history pushed, and the error rethrown. */
  datatype Translation = Translation(frames: seq<Frame>, pushed: seq<Message>, thrown: Option<string>)

  /** The frames once every line is handled: the fallback stop chunk when
      none was sent, then `[DONE]`. */
  function Finished(ctx: ChunkContext, p: Progress): (frames: seq<Frame>)
    ensures p.frames <= frames && |frames| == |p.frames| + (if p.stopSent then 1 else 2)
    ensures frames[|frames| - 1] == Done
  {
    p.frames + (if p.stopSent then [] else [StopChunk(ctx)]) + [Done]
  }

  /** The lines of a body that are ever handled. */
  function BodyLines(body: Body): seq<string> {
    CompleteLines(Concat(body.chunks))
  }

  /** A whole run of `processGrokResponse` for the model `model`. */
  function Translate(sha256: string -> Digest, parse: string -> GrokEvent, model: string,
                     upstream: Upstream, nowMs: int): (t: Translation)
    ensures t.thrown.None? <==>
      upstream.Answered? && Retry.IsOk(upstream.status) && upstream.body.Some? && upstream.body.value.readError.None?
    ensures t.thrown.None? ==> |t.frames| > 0 && t.frames[|t.frames| - 1] == Done
  {
    match upstream
    case FetchFailed(message) => Translation([], [], Some(message))
    case Answered(status, text, date, userChatItemId, body) =>
      if !Retry.IsOk(status) then Translation([], [], Some(StatusMessage(status, text)))
      else if body.None? then Translation([], [], Some(NoBodyMessage))
      else
        var ctx := Context(sha256, model, date, userChatItemId, nowMs);
        var p := ProcessLines(ctx, parse, Initial, BodyLines(body.value));
        if body.value.readError.Some? then Translation(p.frames, p.pushed, body.value.readError)
        else Translation(Finished(ctx, p), p.pushed, None)
  }

  // Properties.

  /** Every chunk carries the response's id, creation time and model. */
  predicate Tagged(frames: seq<Frame>, ctx: ChunkContext) {
    forall k :: 0 <= k < |frames| && frames[k].Chunk? ==>
      frames[k].id == ctx.id && frames[k].created == ctx.created && frames[k].model == ctx.model
  }

  /** The history entries the assistant chunks among `frames` stand for. */
  function AssistantMessages(frames: seq<Frame>): seq<Message> {
    if |frames| == 0 then []
    else
      var f := frames[|frames| - 1];
      AssistantMessages(frames[..|frames| - 1]) +
        (if f.Chunk? && f.delta.role == Some("assistant") && f.delta.content.Some?
         then [Message("assistant", f.delta.content.value)] else [])
  }

  /** The number of soft stops among the lines. */
  function SoftStops(parse: string -> GrokEvent, lines: seq<string>): nat
    decreases |lines|
  {
    if |lines| == 0 then 0 else (if Classify(parse, lines[0]).SoftStop? then 1 else 0) + SoftStops(parse, lines[1..])
  }

  /** What holds of the progress at every step: chunks are tagged, the
      pushed history is the assistant chunks, no `[DONE]` yet, and
      `stopSignalSent` says whether a stop chunk went out. */
  predicate Consistent(ctx: ChunkContext, p: Progress) {
    && Tagged(p.frames, ctx)
    && p.pushed == AssistantMessages(p.frames)
    && DoneCount(p.frames) == 0
    && (p.stopSent <==> StopCount(p.frames) > 0)
  }

  lemma AssistantMessagesAppend(frames: seq<Frame>, f: Frame)
    ensures AssistantMessages(frames + [f]) == AssistantMessages(frames) +
      (if f.Chunk? && f.delta.role == Some("assistant") && f.delta.content.Some?
       then [Message("assistant", f.delta.content.value)] else [])
  {
    assert (frames + [f])[..|frames|] == frames;
  }

  /** One line adds at most one frame, and that frame keeps the progress
      consistent; the stop count grows by one exactly for a soft stop. */
  lemma ProcessLineKeeps(ctx: ChunkContext, parse: string -> GrokEvent, p: Progress, raw: string)
    requires Consistent(ctx, p)
    ensures var q := ProcessLine(ctx, parse, p, raw);
      && Consistent(ctx, q)
      && StopCount(q.frames) == StopCount(p.frames) + (if Classify(parse, raw).SoftStop? then 1 else 0)
      && q.stopSent == (p.stopSent || Classify(parse, raw).SoftStop?)
  {
    var kind := Classify(parse, raw);
    if kind.Skip? {
      assert ProcessLine(ctx, parse, p, raw) == p;
    } else {
      var f := LineFrames(ctx, kind)[0];
      assert LineFrames(ctx, kind) == [f];
      FrameKeeps(ctx, p, f, LinePushed(kind), kind.SoftStop?);
    }
  }

  /** Adding one chunk of the response, with the history entry it stands
      for, keeps the progress consistent. */
  lemma FrameKeeps(ctx: ChunkContext, p: Progress, f: Frame, pushed: seq<Message>, stop: bool)
    requires Consistent(ctx, p)
    requires f.Chunk? && f.id == ctx.id && f.created == ctx.created && f.model == ctx.model
    requires stop == IsStop(f)
    requires pushed == (if f.delta.role == Some("assistant") && f.delta.content.Some?
                        then [Message("assistant", f.delta.content.value)] else [])
    ensures var q := Progress(p.frames + [f], p.pushed + pushed, p.stopSent || stop);
      && Consistent(ctx, q)
      && StopCount(q.frames) == StopCount(p.frames) + (if stop then 1 else 0)
  {
    AssistantMessagesAppend(p.frames, f);
    CountsAppend(p.frames, f);
    var frames := p.frames + [f];
    forall k | 0 <= k < |frames| && frames[k].Chunk?
      ensures frames[k].id == ctx.id && frames[k].created == ctx.created && frames[k].model == ctx.model
    {
      if k < |p.frames| { assert frames[k] == p.frames[k]; }
    }
  }

  lemma {:induction false} ProcessLinesKeeps(ctx: ChunkContext, parse: string -> GrokEvent, p: Progress,
                                             lines: seq<string>)
    requires Consistent(ctx, p)
    ensures var q := ProcessLines(ctx, parse, p, lines);
      && Consistent(ctx, q)
      && StopCount(q.frames) == StopCount(p.frames) + SoftStops(parse, lines)
      && q.stopSent == (p.stopSent || SoftStops(parse, lines) > 0)
    decreases |lines|
  {
    if |lines| > 0 {
      ProcessLineKeeps(ctx, parse, p, lines[0]);
      ProcessLinesKeeps(ctx, parse, ProcessLine(ctx, parse, p, lines[0]), lines[1..]);
    }
  }

  /** The lines of a body can be handled in any grouping. */
  lemma {:induction false} ProcessLinesAppend(ctx: ChunkContext, parse: string -> GrokEvent, p: Progress,
                                              a: seq<string>, b: seq<string>)
    ensures ProcessLines(ctx, parse, p, a + b) == ProcessLines(ctx, parse, ProcessLines(ctx, parse, p, a), b)
    decreases |a|
  {
    if |a| > 0 {
      assert (a + b)[0] == a[0] && (a + b)[1..] == a[1..] + b;
      ProcessLinesAppend(ctx, parse, ProcessLine(ctx, parse, p, a[0]), a[1..], b);
    } else {
      assert a + b == b;
    }
  }

  /** A line from a sender gives exactly one content chunk, with the
      table's role (`assistant` unless the sender is `1`) and the message,
      wrapped in thinking tags exactly when `isThinking`; it is pushed to
      the history exactly when its role is `assistant`. */
  lemma FragmentLine(ctx: ChunkContext, parse: string -> GrokEvent, p: Progress, raw: string, r: GrokResult)
    requires Trim(raw) != "" && parse(Trim(raw)) == Event(Some(r)) && r.sender.Some?
    ensures var q := ProcessLine(ctx, parse, p, raw);
      var content := if r.isThinking then "<Thinking>\n" + r.message + "\n</Thinking>\n\n" else r.message;
      var role := if r.sender.value == "1" then "user" else "assistant";
      && q.frames == p.frames + [Chunk(ctx.id, ctx.created, ctx.model, Delta(Some(role), Some(content)), None)]
      && q.pushed == (if role == "assistant" then p.pushed + [Message("assistant", content)] else p.pushed)
      && q.stopSent == p.stopSent
  {
    assert Classify(parse, raw) == ResultKind(r);
  }

  /** A soft stop without a sender gives exactly one stop chunk with an
      empty delta and sets `stopSignalSent`. */
  lemma SoftStopLine(ctx: ChunkContext, parse: string -> GrokEvent, p: Progress, raw: string, r: GrokResult)
    requires Trim(raw) != "" && parse(Trim(raw)) == Event(Some(r)) && r.sender.None? && r.isSoftStop
    ensures ProcessLine(ctx, parse, p, raw)
         == Progress(p.frames + [Chunk(ctx.id, ctx.created, ctx.model, Delta(None, None), Some("stop"))], p.pushed, true)
  {
  }

  /** Blank lines, lines that do not parse, events without a result and
      results with neither a sender nor a soft stop change nothing. */
  lemma SkippedLine(ctx: ChunkContext, parse: string -> GrokEvent, p: Progress, raw: string)
    requires || Trim(raw) == ""
             || parse(Trim(raw)).Malformed?
             || parse(Trim(raw)).result.None?
             || (parse(Trim(raw)).result.value.sender.None? && !parse(Trim(raw)).result.value.isSoftStop)
    ensures ProcessLine(ctx, parse, p, raw) == p
  {
  }

  /** A run that reads the whole body: the chunks carry one id, one
      creation time and the request's model; there are as many stop chunks
      as soft stops, but at least one; the last frame is the only
      `[DONE]`; and the history pushed is exactly the assistant chunks'
      content, in order. */
  lemma TranslateSucceeds(sha256: string -> Digest, parse: string -> GrokEvent, model: string,
                          upstream: Upstream, nowMs: int)
    requires Translate(sha256, parse, model, upstream, nowMs).thrown.None?
    ensures upstream.Answered? && upstream.body.Some?
    ensures var t := Translate(sha256, parse, model, upstream, nowMs);
      var ctx := Context(sha256, model, upstream.date, upstream.userChatItemId, nowMs);
      var softStops := SoftStops(parse, BodyLines(upstream.body.value));
      && |t.frames| > 0 && t.frames[|t.frames| - 1] == Done
      && DoneCount(t.frames) == 1
      && StopCount(t.frames) == (if softStops == 0 then 1 else softStops)
      && Tagged(t.frames, ctx) && ctx.model == model
      && t.pushed == AssistantMessages(t.frames)
  {
    assert upstream.Answered? && Retry.IsOk(upstream.status) && upstream.body.Some?;
    assert upstream.body.value.readError.None?;
    var ctx := Context(sha256, model, upstream.date, upstream.userChatItemId, nowMs);
    var p := ProcessLines(ctx, parse, Initial, BodyLines(upstream.body.value));
    assert Translate(sha256, parse, model, upstream, nowMs) == Translation(Finished(ctx, p), p.pushed, None);
    ProcessLinesKeeps(ctx, parse, Initial, BodyLines(upstream.body.value));
    FinishedShape(ctx, p);
  }

  /** Finishing a consistent progress adds at most one stop chunk, so that
      there is at least one, and ends with the only `[DONE]`. */
  lemma FinishedShape(ctx: ChunkContext, p: Progress)
    requires Consistent(ctx, p)
    ensures var frames := Finished(ctx, p);
      && |frames| > 0 && frames[|frames| - 1] == Done
      && DoneCount(frames) == 1
      && StopCount(frames) == (if StopCount(p.frames) == 0 then 1 else StopCount(p.frames))
      && Tagged(frames, ctx)
      && p.pushed == AssistantMessages(frames)
  {
    var mid := p.frames + (if p.stopSent then [] else [StopChunk(ctx)]);
    if !p.stopSent {
      CountsAppend(p.frames, StopChunk(ctx));
      AssistantMessagesAppend(p.frames, StopChunk(ctx));
    } else {
      assert mid == p.frames;
    }
    CountsAppend(mid, Done);
    AssistantMessagesAppend(mid, Done);
  }

  /** When the run fails: the error of `fetch`, the status error, the
      missing body, or the read error, in that order; nothing but the
      chunks of the lines already read is written, and never `[DONE]`. */
  lemma TranslateFails(sha256: string -> Digest, parse: string -> GrokEvent, model: string,
                       upstream: Upstream, nowMs: int)
    ensures var t := Translate(sha256, parse, model, upstream, nowMs);
      && (upstream.FetchFailed? ==> t == Translation([], [], Some(upstream.message)))
      && (upstream.Answered? && !Retry.IsOk(upstream.status) ==>
            t == Translation([], [], Some(StatusMessage(upstream.status, upstream.text))))
      && (upstream.Answered? && Retry.IsOk(upstream.status) && upstream.body.None? ==>
            t == Translation([], [], Some(NoBodyMessage)))
      && (upstream.Answered? && Retry.IsOk(upstream.status) && upstream.body.Some? ==>
            t.thrown == upstream.body.value.readError)
      && (t.thrown.Some? ==> DoneCount(t.frames) == 0)
  {
    var t := Translate(sha256, parse, model, upstream, nowMs);
    if upstream.Answered? && Retry.IsOk(upstream.status) && upstream.body.Some? {
      var ctx := Context(sha256, model, upstream.date, upstream.userChatItemId, nowMs);
      ProcessLinesKeeps(ctx, parse, Initial, BodyLines(upstream.body.value));
    }
  }

  /** The response id is the chat-id encoding of the upstream item id, or
      of the clock's decimal text when that header is absent or empty. */
  lemma ContextId(sha256: string -> Digest, model: string, date: Option<int>,
                  userChatItemId: Option<string>, nowMs: int)
    ensures var ctx := Context(sha256, model, date, userChatItemId, nowMs);
      && |ctx.id| == |Prefix| + 32 && ctx.id[..|Prefix|] == Prefix
      && (userChatItemId.Some? && userChatItemId.value != "" ==>
            ctx.id == EncodeChatId(sha256, StringId(userChatItemId.value)))
      && (userChatItemId.None? || userChatItemId == Some("") ==>
            ctx.id == EncodeChatId(sha256, NumberId(nowMs)))
      && ctx.created * 1000 <= date.GetOr(nowMs) < ctx.created * 1000 + 1000
  {
  }
}
