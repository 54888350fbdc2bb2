/** The client-facing (OpenAI-style) chat format shared by the route and
    the mock generator: messages, and the frames of a streamed answer.  A
    frame stands for one `data: ...\n\n` write; its JSON text is not
    modelled. */
module OpenAi {
  import opened Wrappers

  datatype Message = Message(role: string, content: string)

  /** `delta` of a streamed chunk; an absent field is `None`. */
  datatype Delta = Delta(role: Option<string>, content: Option<string>)

  datatype Frame =
    | Chunk(id: string, created: int, model: string, delta: Delta, finishReason: Option<string>)
    | Done   // `data: [DONE]`

  const EmptyDelta: Delta := Delta(None, None)

  predicate IsStop(f: Frame) {
    f.Chunk? && f.finishReason == Some("stop")
  }

  /** The content a chunk adds to the answer. */
  function ContentOf(f: Frame): string {
    if f.Chunk? && f.delta.content.Some? then f.delta.content.value else ""
  }

  /** Everything the client reads as content, in order. */
  function StreamedText(frames: seq<Frame>): string
  {
    if |frames| == 0 then "" else StreamedText(frames[..|frames| - 1]) + ContentOf(frames[|frames| - 1])
  }

  /** The number of stop chunks. */
  function StopCount(frames: seq<Frame>): nat
  {
    if |frames| == 0 then 0
    else StopCount(frames[..|frames| - 1]) + (if IsStop(frames[|frames| - 1]) then 1 else 0)
  }

  /** The number of `[DONE]` frames. */
  function DoneCount(frames: seq<Frame>): nat
  {
    if |frames| == 0 then 0
    else DoneCount(frames[..|frames| - 1]) + (if frames[|frames| - 1].Done? then 1 else 0)
  }

  lemma StreamedTextAppend(frames: seq<Frame>, f: Frame)
    ensures StreamedText(frames + [f]) == StreamedText(frames) + ContentOf(f)
  {
    assert (frames + [f])[..|frames|] == frames;
  }

  lemma CountsAppend(frames: seq<Frame>, f: Frame)
    ensures StopCount(frames + [f]) == StopCount(frames) + (if IsStop(f) then 1 else 0)
    ensures DoneCount(frames + [f]) == DoneCount(frames) + (if f.Done? then 1 else 0)
  {
    assert (frames + [f])[..|frames|] == frames;
  }
}
