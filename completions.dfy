/** The `/v1/chat/completions` route of route.ts: `POST` validates the
    request in a fixed order, appends the messages to the in-memory
    conversation history, and builds the Grok request; `processGrokResponse`
    turns Grok's line-oriented answer into OpenAI chunks written to the
    client, pushes assistant fragments to the history and always closes the
    writer. */
module Completions {
  import opened Wrappers
  import opened Strings
  import opened OpenAi
  import opened LineBuffer
  import opened ChatId
  import opened GrokStream
  import Retry

  /** `ROLE_TO_SENDER[role] || 1`: `assistant` is sender 2, every other
      role (`user`, `system`, anything) sender 1. */
  function RoleToSender(role: string): (sender: int)
    ensures sender == 1 || sender == 2
    ensures sender == 2 <==> role == "assistant"
  {
    if role == "user" then 1 else if role == "assistant" then 2 else 1
  }

  /** `SENDER_TO_ROLE[key]` with the table of lib/grok-utils.ts, whose extra
      `ASSISTANT` entry the route's copy lacks; `None` for `undefined`. */
  function LibSenderToRole(senderKey: string): (role: Option<string>)
    ensures role.Some? <==> senderKey in {"1", "2", "ASSISTANT"}
  {
    if senderKey == "1" then Some("user")
    else if senderKey == "2" || senderKey == "ASSISTANT" then Some("assistant")
    else None
  }

  /** With the `|| "assistant"` default both tables give the same role. */
  lemma SenderTablesAgree(senderKey: string)
    ensures LibSenderToRole(senderKey).GetOr("assistant") == SenderToRole(senderKey)
    ensures SenderToRole(senderKey) == "user" <==> senderKey == "1"
  {
  }

  /** One entry of the Grok request's `responses` (`fileAttachments` is
      always empty and left out). */
  datatype GrokTurn = GrokTurn(message: string, sender: int)

  datatype GrokRequestBody =
    GrokRequestBody(responses: seq<GrokTurn>, grokModelOptionId: string, isDeepsearch: bool, isReasoning: bool)

  /** The two request headers that depend on the caller; `content-type` and
      `accept-encoding` are fixed. */
  datatype GrokHeaders = GrokHeaders(authorization: string, cookie: string)

  const DefaultModel: string := "grok-3"
  const ReasoningModel: string := "grok-3t"
  const DeepsearchModel: string := "grok-3ds"

  /** The Grok request body for a conversation history and the requested
      model: every stored message in order, the fixed model option, and the
      two flags. */
  function RequestBodyFor(history: seq<Message>, model: Option<string>): (body: GrokRequestBody)
    ensures |body.responses| == |history|
    ensures forall k :: 0 <= k < |history| ==>
      body.responses[k] == GrokTurn(history[k].content, RoleToSender(history[k].role))
    ensures body.grokModelOptionId == DefaultModel
    ensures body.isReasoning <==> model == Some(ReasoningModel)
    ensures body.isDeepsearch <==> model == Some(DeepsearchModel)
  {
    GrokRequestBody(seq(|history|, k requires 0 <= k < |history| => GrokTurn(history[k].content, RoleToSender(history[k].role))),
                    DefaultModel, model == Some(DeepsearchModel), model == Some(ReasoningModel))
  }

  /** The fields of the parsed request the route reads: `messages` (`None`
      when absent or falsy), `model`, and `conversation_id` (`""` when
      absent or falsy). */
  datatype RequestData = RequestData(messages: Option<seq<Message>>, model: Option<string>, conversationId: string)

  /** The request body: not JSON, a falsy JSON value, or an object. */
  datatype RequestBody = NotJson | Json(data: Option<RequestData>)

  datatype Credentials = Credentials(bearer: string, token: Option<string>)

  /** `authHeader.split("Bearer ")[1].split(",")`: `None` where the first
      `[1]` is `undefined` and the second `split` throws; the token is
      `undefined` when there is no comma. */
  function ParseAuthorization(header: string): (r: Option<Credentials>)
    ensures r.None? <==> IndexOf(header, BearerPrefix).None?
  {
    var afterBearer := Split(header, BearerPrefix);
    if |afterBearer| < 2 then
      assert IndexOf(header, BearerPrefix).None?;
      None
    else
      var authParts := Split(afterBearer[1], ",");
      Some(Credentials(authParts[0], if |authParts| > 1 then Some(authParts[1]) else None))
  }

  const BearerPrefix: string := "Bearer "

  datatype HttpError = HttpError(status: int, error: string)

  const InvalidBodyError: HttpError := HttpError(400, "Invalid request body")
  const MissingAuthError: HttpError := HttpError(401, "Authorization header is missing")
  const AuthFormatError: HttpError :=
    HttpError(400, "Invalid Authorization header format. Expected 'Bearer $AUTH_BEARER,$AUTH_TOKEN'")
  const MissingMessagesError: HttpError := HttpError(400, "Invalid request body. Expected 'messages' in request body")
  const EmptyMessagesError: HttpError := HttpError(400, "'messages' cannot be empty")

  /** A request that passed every check. */
  datatype Admitted = Admitted(credentials: Credentials, data: RequestData, messages: seq<Message>)

  /** The checks of `POST`, in the order the source makes them: an
      admitted request is a JSON object with a non-empty `messages` list
      and a header that parses; every rejection is one of the five errors. */
  function Validate(body: RequestBody, authorization: Option<string>): (r: Result<Admitted, HttpError>)
    ensures r.Ok? ==>
      && body.Json? && body.data == Some(r.value.data)
      && r.value.data.messages == Some(r.value.messages) && |r.value.messages| > 0
    ensures r.Ok? ==> authorization.Some? && ParseAuthorization(authorization.value) == Some(r.value.credentials)
    ensures r.Err? ==>
      r.error in {InvalidBodyError, MissingAuthError, AuthFormatError, MissingMessagesError, EmptyMessagesError}
  {
    if body.NotJson? then Err(InvalidBodyError)
    else if authorization.None? || authorization.value == "" then Err(MissingAuthError)
    else match ParseAuthorization(authorization.value)
      case None => Err(AuthFormatError)
      case Some(credentials) =>
        if body.data.None? || body.data.value.messages.None? then Err(MissingMessagesError)
        else if |body.data.value.messages.value| == 0 then Err(EmptyMessagesError)
        else Ok(Admitted(credentials, body.data.value, body.data.value.messages.value))
  }

  /** `openaiRequestData.conversation_id || String(Date.now())`. */
  function ConversationIdFor(data: RequestData, nowMs: int): (id: string)
    ensures data.conversationId != "" ==> id == data.conversationId
    ensures data.conversationId == "" ==> id == DecimalString(nowMs)
    ensures |id| > 0
  {
    if data.conversationId != "" then data.conversationId else DecimalString(nowMs)
  }

  /** `authorization: Bearer ${authBearer}` and `cookie: auth_token=${authToken}`,
      where an `undefined` token prints as `undefined`. */
  function HeadersFor(credentials: Credentials): (h: GrokHeaders)
    ensures |h.authorization| >= |BearerPrefix| && h.authorization[..|BearerPrefix|] == BearerPrefix
    ensures h.authorization[|BearerPrefix|..] == credentials.bearer
    ensures |h.cookie| >= 11 && h.cookie[..11] == "auth_token="
    ensures h.cookie[11..] == if credentials.token.Some? then credentials.token.value else "undefined"
  {
    GrokHeaders(BearerPrefix + credentials.bearer, "auth_token=" + credentials.token.GetOr("undefined"))
  }

  /** What `POST` answers: a JSON error, or the event stream, for which it
      starts `processGrokResponse` with these arguments. */
  datatype PostOutcome = Rejected(error: HttpError) | Streaming(conversationId: string, headers: GrokHeaders, body: GrokRequestBody)

  /** The history after `pushed` is appended to the conversation, which is
      left alone when it does not exist. */
  function Pushed(conversations: map<string, seq<Message>>, id: string, pushed: seq<Message>)
    : (r: map<string, seq<Message>>)
    ensures r.Keys == conversations.Keys
    ensures id in conversations ==> r[id] == conversations[id] + pushed
    ensures forall k :: k in r && k != id ==> r[k] == conversations[k]
  {
    if id in conversations then conversations[id := conversations[id] + pushed] else conversations
  }

  lemma PushedNothing(conversations: map<string, seq<Message>>, id: string)
    ensures Pushed(conversations, id, []) == conversations
  {
    if id in conversations {
      assert conversations[id] + [] == conversations[id];
    }
  }

  lemma PushedAppend(conversations: map<string, seq<Message>>, id: string, a: seq<Message>, b: seq<Message>)
    ensures Pushed(Pushed(conversations, id, a), id, b) == Pushed(conversations, id, a + b)
  {
    if id in conversations {
      assert conversations[id] + a + b == conversations[id] + (a + b);
    }
  }

  /** The writable side of the response stream: the frames written so far
      and whether it was closed.  Writing or closing a closed writer is an
      error, so the methods demand an open one. */
  class Writer {
    var frames: seq<Frame>
    var closed: bool

    constructor ()
      ensures frames == [] && !closed
    {
      frames := [];
      closed := false;
    }

    method Write(f: Frame)
      requires !closed
      modifies this
      ensures frames == old(frames) + [f] && !closed
    {
      frames := frames + [f];
    }

    method Close()
      requires !closed
      modifies this
      ensures closed && frames == old(frames)
    {
      closed := true;
    }
  }

  class Route {
    /** `conversations`: the history of every conversation id. */
    var conversations: map<string, seq<Message>>

    constructor ()
      ensures conversations == map[]
    {
      conversations := map[];
    }

    /** `POST`: a rejected request changes nothing; an admitted one appends
      its messages to the conversation's history (started empty when the id
      is new) and replays the whole history to Grok.  `nowMs` is
      `Date.now()`. */
    method Post(body: RequestBody, authorization: Option<string>, nowMs: int) returns (outcome: PostOutcome)
      modifies this
      ensures Validate(body, authorization).Err? ==>
        outcome == Rejected(Validate(body, authorization).error) && conversations == old(conversations)
      ensures Validate(body, authorization).Ok? ==>
        var admitted := Validate(body, authorization).value;
        var id := ConversationIdFor(admitted.data, nowMs);
        var history := (if id in old(conversations) then old(conversations)[id] else []) + admitted.messages;
        && conversations == old(conversations)[id := history]
        && outcome == Streaming(id, HeadersFor(admitted.credentials), RequestBodyFor(history, admitted.data.model))
    {
      if body.NotJson? {
        return Rejected(InvalidBodyError);
      }
      if authorization.None? || authorization.value == "" {
        return Rejected(MissingAuthError);
      }
      var bearerSplit := Split(authorization.value, BearerPrefix);
      if |bearerSplit| < 2 {
        return Rejected(AuthFormatError);
      }
      var authParts := Split(bearerSplit[1], ",");
      var authBearer := authParts[0];
      var authToken := if |authParts| > 1 then Some(authParts[1]) else None;
      if body.data.None? || body.data.value.messages.None? {
        return Rejected(MissingMessagesError);
      }
      var openaiRequestData := body.data.value;
      var messages := openaiRequestData.messages.value;
      if |messages| == 0 {
        return Rejected(EmptyMessagesError);
      }
      var conversationId := if openaiRequestData.conversationId != "" then openaiRequestData.conversationId
                            else DecimalString(nowMs);
      if conversationId !in conversations {
        conversations := conversations[conversationId := []];
      }
      conversations := conversations[conversationId := conversations[conversationId] + messages];
      var headers := GrokHeaders(BearerPrefix + authBearer, "auth_token=" + authToken.GetOr("undefined"));
      var history := conversations[conversationId];
      var responses: seq<GrokTurn> := [];
      for k := 0 to |history|
        invariant |responses| == k
        invariant forall j :: 0 <= j < k ==>
          responses[j] == GrokTurn(history[j].content, RoleToSender(history[j].role))
      {
        responses := responses + [GrokTurn(history[k].content, RoleToSender(history[k].role))];
      }
      var grokRequestBody := GrokRequestBody(responses, DefaultModel,
                                             openaiRequestData.model == Some(DeepsearchModel),
                                             openaiRequestData.model == Some(ReasoningModel));
      assert grokRequestBody == RequestBodyFor(history, openaiRequestData.model);
      outcome := Streaming(conversationId, headers, grokRequestBody);
    }

    /** One complete line of the body: the frames it writes, the history it
      pushes, and `stopSignalSent` afterwards, as `Classify` says. */
    method HandleLine(ctx: ChunkContext, parse: string -> GrokEvent, raw: string, writer: Writer,
                      conversationId: string, stopSignalSent: bool) returns (sent: bool)
      requires !writer.closed
      modifies this, writer
      ensures !writer.closed
      ensures writer.frames == old(writer.frames) + LineFrames(ctx, Classify(parse, raw))
      ensures conversations == Pushed(old(conversations), conversationId, LinePushed(Classify(parse, raw)))
      ensures sent == (stopSignalSent || Classify(parse, raw).SoftStop?)
    {
      PushedNothing(conversations, conversationId);
      sent := stopSignalSent;
      var line := Trim(raw);
      if line == "" {
        return;
      }
      match parse(line) {
        case Malformed =>
        case Event(None) =>
        case Event(Some(result)) =>
          sent := HandleResult(ctx, result, writer, conversationId, sent);
      }
    }

    /** The `result` of a parsed line: a fragment from a sender is written
      as a content chunk, thinking wrapped in its markers; otherwise a soft
      stop writes the stop chunk and sets `stopSignalSent`. */
    method HandleResult(ctx: ChunkContext, result: GrokResult, writer: Writer, conversationId: string,
                        stopSignalSent: bool) returns (sent: bool)
      requires !writer.closed
      modifies this, writer
      ensures !writer.closed
      ensures writer.frames == old(writer.frames) + LineFrames(ctx, ResultKind(result))
      ensures conversations == Pushed(old(conversations), conversationId, LinePushed(ResultKind(result)))
      ensures sent == (stopSignalSent || ResultKind(result).SoftStop?)
    {
      PushedNothing(conversations, conversationId);
      sent := stopSignalSent;
      if result.sender.Some? {
        var role := SenderToRole(result.sender.value);
        var messageContent := ConvertTweetLinks(result.message);
        if result.isThinking {
          messageContent := ThinkingOpen + messageContent + ThinkingClose;
        }
        WriteFragment(ctx, role, messageContent, writer, conversationId);
      } else if result.isSoftStop {
        writer.Write(StopChunk(ctx));
        sent := true;
      }
    }

    /** A fragment line: its content chunk is written, and an assistant
      fragment is appended to the conversation's history when there is one. */
    method WriteFragment(ctx: ChunkContext, role: string, messageContent: string, writer: Writer,
                         conversationId: string)
      requires !writer.closed
      modifies this, writer
      ensures !writer.closed
      ensures writer.frames == old(writer.frames) + LineFrames(ctx, Fragment(role, messageContent))
      ensures conversations == Pushed(old(conversations), conversationId, LinePushed(Fragment(role, messageContent)))
    {
      PushedNothing(conversations, conversationId);
      writer.Write(ContentChunk(ctx, role, messageContent));
      if role == "assistant" && conversationId in conversations {
        conversations := conversations[conversationId := conversations[conversationId] +
                                       [Message("assistant", messageContent)]];
      }
    }

    /** The inner loop: takes every complete line off the front of
      `buffer` and handles it, leaving the remainder. */
    method DrainLines(ctx: ChunkContext, parse: string -> GrokEvent, buffer: string, writer: Writer,
                      conversationId: string, stopSignalSent: bool, ghost frames0: seq<Frame>,
                      ghost conversations0: map<string, seq<Message>>, ghost p: Progress)
      returns (rest: string, sent: bool, ghost q: Progress)
      requires !writer.closed
      requires writer.frames == frames0 + p.frames && stopSignalSent == p.stopSent
      requires conversations == Pushed(conversations0, conversationId, p.pushed)
      modifies this, writer
      ensures !writer.closed
      ensures q == ProcessLines(ctx, parse, p, CompleteLines(buffer)) && rest == Remainder(buffer)
      ensures writer.frames == frames0 + q.frames && sent == q.stopSent
      ensures conversations == Pushed(conversations0, conversationId, q.pushed)
    {
      rest, sent, q := buffer, stopSignalSent, p;
      var lineEnd := LineEnd(rest);
      while lineEnd.Some?
        invariant lineEnd == LineEnd(rest)
        invariant !writer.closed
        invariant ProcessLines(ctx, parse, p, CompleteLines(buffer)) == ProcessLines(ctx, parse, q, CompleteLines(rest))
        invariant Remainder(buffer) == Remainder(rest)
        invariant Mirrors(writer.frames, conversations, sent, frames0, conversations0, conversationId, q)
        decreases |rest|
      {
        var line := rest[..lineEnd.value];
        DrainStep(ctx, parse, q, rest, lineEnd.value);
        rest := rest[lineEnd.value + 1..];
        MirrorStep(ctx, writer.frames, conversations, sent, frames0, conversations0, conversationId, q,
                   Classify(parse, line));
        sent := HandleLine(ctx, parse, line, writer, conversationId, sent);
        q := ProcessLine(ctx, parse, q, line);
        lineEnd := LineEnd(rest);
      }
      NoBreakNoLines(rest);
    }

    /** The read loop over a body's chunks, then the fallback stop chunk
      and `[DONE]` unless reading failed. */
    method StreamBody(ctx: ChunkContext, parse: string -> GrokEvent, body: Body, writer: Writer,
                      conversationId: string) returns (thrown: Option<string>)
      requires !writer.closed
      modifies this, writer
      ensures !writer.closed
      ensures var p := ProcessLines(ctx, parse, Initial, BodyLines(body));
        && thrown == body.readError
        && writer.frames == old(writer.frames) + (if body.readError.Some? then p.frames else Finished(ctx, p))
        && conversations == Pushed(old(conversations), conversationId, p.pushed)
    {
      ghost var frames0 := writer.frames;
      ghost var conversations0 := conversations;
      ghost var p := Initial;
      PushedNothing(conversations, conversationId);
      var buffer := "";
      var stopSignalSent := false;
      var k := 0;
      while k < |body.chunks|
        invariant 0 <= k <= |body.chunks|
        invariant !writer.closed
        invariant buffer == Remainder(Concat(body.chunks[..k]))
        invariant p == ProcessLines(ctx, parse, Initial, CompleteLines(Concat(body.chunks[..k])))
        invariant writer.frames == frames0 + p.frames && stopSignalSent == p.stopSent
        invariant conversations == Pushed(conversations0, conversationId, p.pushed)
      {
        ChunkStep(ctx, parse, body.chunks, k);
        buffer := buffer + body.chunks[k];
        buffer, stopSignalSent, p := DrainLines(ctx, parse, buffer, writer, conversationId, stopSignalSent,
                                                frames0, conversations0, p);
        k := k + 1;
      }
      assert body.chunks[..k] == body.chunks;
      if body.readError.Some? {
        return body.readError;
      }
      if !stopSignalSent {
        writer.Write(StopChunk(ctx));
      }
      writer.Write(Done);
      thrown := None;
    }

    /** `processGrokResponse` for the request `request`, given what `fetch`
      did (`upstream`), the clock, SHA-256 and the parser: it writes the
      frames and pushes the history `Translate` describes, rethrows its
      error, and closes the writer in every case. */
    method ProcessGrokResponse(request: GrokRequestBody, writer: Writer, conversationId: string,
                               upstream: Upstream, nowMs: int, sha256: string -> Digest,
                               parse: string -> GrokEvent) returns (thrown: Option<string>)
      requires !writer.closed
      modifies this, writer
      ensures var t := Translate(sha256, parse, request.grokModelOptionId, upstream, nowMs);
        && thrown == t.thrown
        && writer.frames == old(writer.frames) + t.frames
        && writer.closed
        && conversations == Pushed(old(conversations), conversationId, t.pushed)
    {
      PushedNothing(conversations, conversationId);
      match upstream {
        case FetchFailed(message) =>
          thrown := Some(message);
        case Answered(status, text, date, userChatItemId, body) =>
          if !Retry.IsOk(status) {
            thrown := Some(StatusMessage(status, text));
          } else if body.None? {
            thrown := Some(NoBodyMessage);
          } else {
            var openaiCreatedTime := CreatedTime(date, nowMs);
            var grokId := GrokIdText(userChatItemId, nowMs);
            var openaiChunkId := EncodeChatId(sha256, StringId(grokId));
            var ctx := ChunkContext(openaiChunkId, openaiCreatedTime, request.grokModelOptionId);
            thrown := StreamBody(ctx, parse, body.value, writer, conversationId);
          }
      }
      writer.Close();
    }
    /** `POST` together with the `processGrokResponse` it starts on a fresh
      stream: an admitted request's history gets its messages and then the
      assistant fragments of the answer, and the client reads the frames of
      the translation for the model `grok-3`, on a writer that ends closed.
      All three `Date.now()` readings (the conversation id, the `created`
      fallback and the item-id fallback) are the one instant `nowMs`. */
    method Serve(body: RequestBody, authorization: Option<string>, nowMs: int, upstream: Upstream,
                 sha256: string -> Digest, parse: string -> GrokEvent)
      returns (outcome: PostOutcome, writer: Writer?, thrown: Option<string>)
      modifies this
      ensures outcome.Rejected? <==> Validate(body, authorization).Err?
      ensures outcome.Rejected? ==> writer == null && thrown == None && conversations == old(conversations)
      ensures outcome.Streaming? ==>
        var t := Translate(sha256, parse, DefaultModel, upstream, nowMs);
        var admitted := Validate(body, authorization).value;
        var id := ConversationIdFor(admitted.data, nowMs);
        var history := (if id in old(conversations) then old(conversations)[id] else []) + admitted.messages;
        && outcome.conversationId == id
        && writer != null && writer.closed && writer.frames == t.frames
        && thrown == t.thrown
        && conversations == old(conversations)[id := history + t.pushed]
    {
      outcome := Post(body, authorization, nowMs);
      writer := null;
      thrown := None;
      if outcome.Streaming? {
        var w := new Writer();
        ghost var afterPost := conversations;
        thrown := ProcessGrokResponse(outcome.body, w, outcome.conversationId, upstream, nowMs, sha256, parse);
        assert outcome.conversationId in afterPost;
        writer := w;
      }
    }
  }

  /** The writer's frames, the histories and `stopSignalSent` are those of
      the progress `q`, on top of what was there before. */
  ghost predicate Mirrors(frames: seq<Frame>, conversations: map<string, seq<Message>>, sent: bool,
                          frames0: seq<Frame>, conversations0: map<string, seq<Message>>, id: string,
                          q: Progress)
  {
    && frames == frames0 + q.frames
    && sent == q.stopSent
    && conversations == Pushed(conversations0, id, q.pushed)
  }

  /** Handling one line keeps the state and the progress in step. */
  lemma MirrorStep(ctx: ChunkContext, frames: seq<Frame>, conversations: map<string, seq<Message>>, sent: bool,
                   frames0: seq<Frame>, conversations0: map<string, seq<Message>>, id: string,
                   q: Progress, kind: LineKind)
    requires Mirrors(frames, conversations, sent, frames0, conversations0, id, q)
    ensures Mirrors(frames + LineFrames(ctx, kind), Pushed(conversations, id, LinePushed(kind)),
                    sent || kind.SoftStop?, frames0, conversations0, id, Advance(ctx, q, kind))
  {
    PushedAppend(conversations0, id, q.pushed, LinePushed(kind));
    assert frames0 + q.frames + LineFrames(ctx, kind) == frames0 + (q.frames + LineFrames(ctx, kind));
  }

  /** Handling the first complete line of a buffer. */
  lemma DrainStep(ctx: ChunkContext, parse: string -> GrokEvent, q: Progress, rest: string, i: nat)
    requires LineEnd(rest) == Some(i)
    ensures ProcessLines(ctx, parse, q, CompleteLines(rest))
         == ProcessLines(ctx, parse, ProcessLine(ctx, parse, q, rest[..i]), CompleteLines(rest[i + 1..]))
    ensures Remainder(rest) == Remainder(rest[i + 1..])
  {
    var lines := CompleteLines(rest);
    assert lines == [rest[..i]] + CompleteLines(rest[i + 1..]);
    assert lines[0] == rest[..i] && lines[1..] == CompleteLines(rest[i + 1..]);
  }

  /** Reading chunk `k`: the lines completed so far, then the lines of the
      carried remainder with the chunk added, and the new remainder. */
  lemma ChunkStep(ctx: ChunkContext, parse: string -> GrokEvent, chunks: seq<string>, k: nat)
    requires k < |chunks|
    ensures var before := Concat(chunks[..k]);
      var buffer := Remainder(before) + chunks[k];
      && ProcessLines(ctx, parse, Initial, CompleteLines(Concat(chunks[..k + 1])))
         == ProcessLines(ctx, parse, ProcessLines(ctx, parse, Initial, CompleteLines(before)), CompleteLines(buffer))
      && Remainder(Concat(chunks[..k + 1])) == Remainder(buffer)
  {
    var before := Concat(chunks[..k]);
    AppendChunk(before, chunks[k]);
    assert chunks[..k + 1] == chunks[..k] + [chunks[k]];
    ConcatAppend(chunks[..k], chunks[k]);
    ProcessLinesAppend(ctx, parse, Initial, CompleteLines(before), CompleteLines(Remainder(before) + chunks[k]));
  }

  // Properties of the checks.

  /** The checks come in this order, each reached only when the earlier
      ones pass: JSON body, header present, `Bearer ` in the header,
      `messages` present, `messages` not empty. */
  lemma ValidationOrder(body: RequestBody, authorization: Option<string>)
    ensures var v := Validate(body, authorization);
      var noHeader := authorization.None? || authorization == Some("");
      var noBearer := !noHeader && IndexOf(authorization.value, BearerPrefix).None?;
      var noMessages := body.Json? && (body.data.None? || body.data.value.messages.None?);
      && (v == Err(InvalidBodyError) <==> body.NotJson?)
      && (v == Err(MissingAuthError) <==> !body.NotJson? && noHeader)
      && (v == Err(AuthFormatError) <==> !body.NotJson? && noBearer)
      && (v == Err(MissingMessagesError) <==> !noHeader && !noBearer && noMessages)
      && (v == Err(EmptyMessagesError) <==>
            !noHeader && !noBearer && body.Json? && !noMessages && body.data.value.messages == Some([]))
      && (v.Ok? <==> !noHeader && !noBearer && body.Json? && !noMessages && body.data.value.messages != Some([]))
  {
  }

  /** `Bearer b,t` gives the bearer `b` and the token `t` when neither
      contains a comma and the rest has no second `Bearer `. */
  lemma BearerWithToken(b: string, t: string)
    requires IndexOf(b, ",").None? && IndexOf(t, ",").None?
    requires IndexOf(b + "," + t, BearerPrefix).None?
    ensures ParseAuthorization(BearerPrefix + b + "," + t) == Some(Credentials(b, Some(t)))
  {
    var rest := b + "," + t;
    AfterBearer(rest);
    assert BearerPrefix + b + "," + t == BearerPrefix + rest;
    CommaSplit(b, t);
  }

  /** Without a comma the token is `undefined`. */
  lemma BearerWithoutToken(b: string)
    requires IndexOf(b, ",").None? && IndexOf(b, BearerPrefix).None?
    ensures ParseAuthorization(BearerPrefix + b) == Some(Credentials(b, None))
  {
    AfterBearer(b);
  }

  lemma AfterBearer(rest: string)
    requires IndexOf(rest, BearerPrefix).None?
    ensures Split(BearerPrefix + rest, BearerPrefix) == ["", rest]
  {
    IndexOfPrefix(BearerPrefix, rest);
    assert (BearerPrefix + rest)[..0] == "";
    assert (BearerPrefix + rest)[|BearerPrefix|..] == rest;
  }

  lemma CommaSplit(b: string, t: string)
    requires IndexOf(b, ",").None? && IndexOf(t, ",").None?
    ensures Split(b + "," + t, ",") == [b, t]
  {
    var s := b + "," + t;
    IndexOfAfter(b, ",", t);
    assert s[..|b|] == b && s[|b| + 1..] == t;
  }
}
