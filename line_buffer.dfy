/** The line reassembly of `processGrokResponse` (route.ts): decoded
    chunks are appended to a buffer, and every complete `\n`-terminated
    line is taken off its front; text after the last `\n` waits for the
    next chunk. */
module LineBuffer {
  import opened Wrappers
  import opened Strings

  const Newline: string := "\n"

  /** All the chunks read so far, in order; each of them fits in it. */
  function Concat(chunks: seq<string>): (r: string)
    ensures forall k :: 0 <= k < |chunks| ==> |chunks[k]| <= |r|
  {
    if |chunks| == 0 then "" else Concat(chunks[..|chunks| - 1]) + chunks[|chunks| - 1]
  }

  lemma ConcatAppend(chunks: seq<string>, c: string)
    ensures Concat(chunks + [c]) == Concat(chunks) + c
  {
    assert (chunks + [c])[..|chunks|] == chunks;
  }

  /** The buffer holds every chunk read, right after the chunks before it. */
  lemma ChunkInConcat(chunks: seq<string>, k: nat)
    requires k < |chunks|
    ensures Concat(chunks[..k]) + chunks[k] <= Concat(chunks)
  {
    var upTo := chunks[..k + 1];
    assert upTo[..k] == chunks[..k] && upTo[k] == chunks[k];
    assert Concat(upTo) == Concat(chunks[..k]) + chunks[k];
    ConcatPrefix(chunks, k + 1);
  }

  /** The text read at any earlier moment is a prefix of the text read
      later. */
  lemma {:induction false} ConcatPrefix(chunks: seq<string>, k: nat)
    requires k <= |chunks|
    ensures Concat(chunks[..k]) <= Concat(chunks)
    decreases |chunks|
  {
    if k < |chunks| {
      var n := |chunks| - 1;
      assert chunks[..n][..k] == chunks[..k];
      ConcatPrefix(chunks[..n], k);
    } else {
      assert chunks[..k] == chunks;
    }
  }

  /** The first `\n` of `t` at or after `k`. */
  function LineEndFrom(t: string, k: nat): (r: Option<nat>)
    ensures r.Some? ==> k <= r.value < |t| && t[r.value] == '\n'
    ensures r.Some? ==> forall j :: k <= j < r.value ==> t[j] != '\n'
    ensures r.None? ==> forall j :: k <= j < |t| ==> t[j] != '\n'
    decreases |t| - k
  {
    if k >= |t| then None else if t[k] == '\n' then Some(k) else LineEndFrom(t, k + 1)
  }

  /** `buffer.indexOf("\n")`: the index of the first line break. */
  function LineEnd(t: string): (r: Option<nat>)
    ensures r.Some? ==> r.value < |t| && t[r.value] == '\n'
    ensures r.Some? ==> forall j :: 0 <= j < r.value ==> t[j] != '\n'
    ensures r.None? ==> forall j :: 0 <= j < |t| ==> t[j] != '\n'
  {
    LineEndFrom(t, 0)
  }

  /** `LineEnd` is `indexOf` for the one-character string `"\n"`. */
  lemma LineEndIsIndexOf(t: string)
    ensures LineEnd(t) == IndexOf(t, Newline)
  {
    match IndexOf(t, Newline)
    case None =>
      if LineEnd(t).Some? {
        var i := LineEnd(t).value;
        assert t[i..i + 1] == Newline;
        assert OccursAt(t, Newline, i);
      }
    case Some(i) =>
      assert t[i..i + 1][0] == t[i];
      var k := LineEnd(t);
      if k.Some? && k.value < i {
        assert t[k.value..k.value + 1] == Newline;
        assert OccursAt(t, Newline, k.value);
      }
  }

  /** The complete lines of `t`, without their `\n`, in order. */
  function CompleteLines(t: string): (lines: seq<string>)
    ensures forall k :: 0 <= k < |lines| ==> LineEnd(lines[k]).None?
    ensures |lines| <= |t|
    decreases |t|
  {
    match LineEnd(t)
    case None => []
    case Some(i) => [t[..i]] + CompleteLines(t[i + 1..])
  }

  /** What is left of `t` after its last `\n`. */
  function Remainder(t: string): (r: string)
    ensures LineEnd(r).None?
    decreases |t|
  {
    match LineEnd(t)
    case None => t
    case Some(i) => Remainder(t[i + 1..])
  }

  /** The complete lines and the remainder are exactly the pieces of
      `t.split("\n")`. */
  lemma {:induction false} LinesAreSplit(t: string)
    ensures Split(t, Newline) == CompleteLines(t) + [Remainder(t)]
    decreases |t|
  {
    LineEndIsIndexOf(t);
    match LineEnd(t)
    case None =>
    case Some(i) =>
      LinesAreSplit(t[i + 1..]);
      assert [t[..i]] + CompleteLines(t[i + 1..]) + [Remainder(t[i + 1..])]
          == [t[..i]] + (CompleteLines(t[i + 1..]) + [Remainder(t[i + 1..])]);
  }

  /** So the lines and the remainder lose nothing of the text. */
  lemma LinesLoseNothing(t: string)
    ensures Join(CompleteLines(t) + [Remainder(t)], Newline) == t
  {
    LinesAreSplit(t);
    JoinSplit(t, Newline);
  }

  /** Taking the first line off `b + c` when that line lies within `b`. */
  lemma TakeLine(b: string, c: string, i: nat)
    requires LineEnd(b) == Some(i)
    ensures LineEnd(b + c) == Some(i)
    ensures CompleteLines(b + c) == [b[..i]] + CompleteLines(b[i + 1..] + c)
    ensures Remainder(b + c) == Remainder(b[i + 1..] + c)
  {
    assert (b + c)[i] == b[i];
    forall j | 0 <= j < i ensures (b + c)[j] != '\n' {
      assert (b + c)[j] == b[j];
    }
    assert (b + c)[i + 1..] == b[i + 1..] + c;
    assert (b + c)[..i] == b[..i];
  }

  /** Appending a chunk: the lines already complete stay as they were, and
      the new lines are those of the old remainder followed by the chunk. */
  lemma AppendChunk(b: string, c: string)
    ensures CompleteLines(b + c) == CompleteLines(b) + CompleteLines(Remainder(b) + c)
    ensures Remainder(b + c) == Remainder(Remainder(b) + c)
  {
    AppendChunkLines(b, c);
    AppendChunkRemainder(b, c);
  }

  lemma {:induction false} AppendChunkLines(b: string, c: string)
    ensures CompleteLines(b + c) == CompleteLines(b) + CompleteLines(Remainder(b) + c)
    decreases |b|
  {
    match LineEnd(b)
    case None =>
    case Some(i) =>
      var rest := b[i + 1..];
      AppendChunkLines(rest, c);
      TakeLine(b, c, i);
      assert [b[..i]] + (CompleteLines(rest) + CompleteLines(Remainder(rest) + c))
          == ([b[..i]] + CompleteLines(rest)) + CompleteLines(Remainder(rest) + c);
  }

  lemma {:induction false} AppendChunkRemainder(b: string, c: string)
    ensures Remainder(b + c) == Remainder(Remainder(b) + c)
    decreases |b|
  {
    match LineEnd(b)
    case None =>
    case Some(i) =>
      AppendChunkRemainder(b[i + 1..], c);
      TakeLine(b, c, i);
  }

  /** Text with no line break adds no complete line. */
  lemma NoBreakNoLines(t: string)
    requires LineEnd(t).None?
    ensures CompleteLines(t) == [] && Remainder(t) == t
  {
  }

  /** A final fragment without `\n` is never taken as a line: the complete
      lines of the whole input are those before it. */
  lemma UnterminatedTailIgnored(t: string, c: string)
    requires LineEnd(c).None?
    ensures CompleteLines(t + c) == CompleteLines(t)
  {
    AppendChunk(t, c);
    var r := Remainder(t);
    forall j | 0 <= j < |r + c| ensures (r + c)[j] != '\n' {
      if j < |r| { assert (r + c)[j] == r[j]; } else { assert (r + c)[j] == c[j - |r|]; }
    }
    assert CompleteLines(t) + [] == CompleteLines(t);
  }
}
