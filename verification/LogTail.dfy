/**
  The client-side tail of the server log: the response is streamed in chunks and only as many of the
  last ones are held as the tail needs.
*/
module LogTail {
  import opened LogFollower

  function Concat(chunks: seq<Bytes>): Bytes {
    if chunks == [] then [] else Concat(chunks[..|chunks| - 1]) + chunks[|chunks| - 1]
  }

  function Last(s: Bytes, n: nat): Bytes { if n < |s| then s[|s| - n..] else s }

  /** Python's s[-n:], which for zero is the whole of s. */
  function SliceFromEnd(s: Bytes, n: int): Bytes {
    if 0 < n then Last(s, n) else if -n <= |s| then s[-n..] else []
  }

  function LastChunk(chunks: seq<Bytes>): Bytes { if chunks == [] then [] else chunks[|chunks| - 1] }

  /** What a limit yields of a stream. */
  function TailOf(stream: seq<Bytes>, max: int): Bytes {
    if 0 < max then Last(Concat(stream), max) else SliceFromEnd(LastChunk(stream), max)
  }

  lemma ConcatAppend(chunks: seq<Bytes>, chunk: Bytes)
    ensures Concat(chunks + [chunk]) == Concat(chunks) + chunk
  {
    assert (chunks + [chunk])[..|chunks|] == chunks;
  }

  lemma {:induction false} ConcatFront(chunks: seq<Bytes>)
    requires chunks != []
    ensures Concat(chunks) == chunks[0] + Concat(chunks[1..])
  {
    if |chunks| == 1 {
      assert chunks[..0] == [] && chunks[1..] == [];
    } else {
      var init := chunks[..|chunks| - 1];
      ConcatFront(init);
      assert chunks[1..][..|chunks| - 2] == init[1..];
      Assoc(chunks[0], Concat(init[1..]), chunks[|chunks| - 1]);
    }
  }

  ghost predicate IsSuffix(s: Bytes, whole: Bytes) { |s| <= |whole| && whole[|whole| - |s|..] == s }

  /** The held chunks are the last of the stream, enough for the tail, and no more than one too many. */
  ghost predicate Holds(chunks: seq<Bytes>, held: int, whole: Bytes, max: int) {
    && held == |Concat(chunks)| && IsSuffix(Concat(chunks), whole)
    && (max <= held || Concat(chunks) == whole)
  }

  predicate Trimmed(chunks: seq<Bytes>, held: int, max: int) {
    |chunks| <= 1 || held < max + |chunks[0]|
  }

  lemma TakeChunk(chunks: seq<Bytes>, held: int, whole: Bytes, max: int, chunk: Bytes)
    requires Holds(chunks, held, whole, max)
    ensures Holds(chunks + [chunk], held + |chunk|, whole + chunk, max)
  {
  }

  lemma DropChunk(chunks: seq<Bytes>, held: int, whole: Bytes, max: int)
    requires Holds(chunks, held, whole, max) && chunks != [] && max <= held - |chunks[0]|
    ensures Holds(chunks[1..], held - |chunks[0]|, whole, max)
  {
    ConcatFront(chunks);
    var s, t := Concat(chunks), Concat(chunks[1..]);
    assert s[|chunks[0]|..] == t;
    assert whole[|whole| - |t|..] == whole[|whole| - |s|..][|chunks[0]|..];
  }

  ghost predicate Among(chunks: seq<Bytes>, stream: seq<Bytes>) { forall c :: c in chunks ==> c in stream }

  ghost predicate AtMost(chunks: seq<Bytes>, size: nat) { forall c :: c in chunks ==> |c| <= size }

  /** One chunk arrives; chunks the tail no longer needs are let go. */
  method Receive(chunks0: seq<Bytes>, held0: int, chunk: Bytes, max: int, ghost whole: Bytes)
      returns (chunks: seq<Bytes>, held: int)
    requires Holds(chunks0, held0, whole, max)
    ensures Holds(chunks, held, whole + chunk, max) && Trimmed(chunks, held, max)
    ensures chunks != [] && chunks[|chunks| - 1] == chunk && Among(chunks, chunks0 + [chunk])
    ensures max <= 0 ==> chunks == [chunk]
  {
    TakeChunk(chunks0, held0, whole, max, chunk);
    chunks, held := chunks0 + [chunk], held0 + |chunk|;
    while |chunks| > 1 && held - |chunks[0]| >= max
      invariant Holds(chunks, held, whole + chunk, max) && Among(chunks, chunks0 + [chunk])
      invariant chunks != [] && chunks[|chunks| - 1] == chunk
      decreases |chunks|
    {
      DropChunk(chunks, held, whole + chunk, max);
      held := held - |chunks[0]|;
      chunks := chunks[1..];
    }
    ConcatFront(chunks);
  }

  lemma HeldBound(chunks: seq<Bytes>, held: int, max: int, size: nat)
    requires held == |Concat(chunks)| && Trimmed(chunks, held, max) && AtMost(chunks, size) && 0 < max
    ensures held < max + size
  {
  }

  /** The tail can be cut from the held chunks as well as from the whole stream. */
  lemma LastOfSuffix(s: Bytes, whole: Bytes, n: nat)
    requires IsSuffix(s, whole) && (n <= |s| || s == whole)
    ensures Last(s, n) == Last(whole, n)
  {
  }

  /** The last n bytes, or all there are. */
  lemma LastMeans(s: Bytes, n: nat)
    ensures |Last(s, n)| == if n < |s| then n else |s|
    ensures exists front :: s == front + Last(s, n)
  {
    var front := s[..|s| - |Last(s, n)|];
    assert s == front + Last(s, n);
  }

  /**
    For a positive limit the result is exactly the end of the whole stream, however it was chunked.
    For zero it is the last chunk, and a negative limit cuts that chunk at the front.  While
    streaming, less than the limit and two chunks are held.
  */
  method Tail(stream: seq<Bytes>, max: int, ghost size: nat) returns (blob: Bytes, ghost peak: nat)
    ensures blob == TailOf(stream, max)
    ensures 0 < max && AtMost(stream, size) ==> peak < max + 2 * size
  {
    var chunks: seq<Bytes> := [];
    var held := 0;
    ghost var whole: Bytes := [];
    peak := 0;
    for n := 0 to |stream|
      invariant whole == Concat(stream[..n]) && Holds(chunks, held, whole, max) && Trimmed(chunks, held, max)
      invariant max <= 0 ==> chunks == if n == 0 then [] else [stream[n - 1]]
      invariant Among(chunks, stream)
      invariant 0 < max && AtMost(stream, size) ==> peak < max + 2 * size
    {
      var chunk := stream[n];
      if 0 < max && AtMost(stream, size) { HeldBound(chunks, held, max, size); }
      peak := if peak < held + |chunk| then held + |chunk| else peak;
      ConcatAppend(stream[..n], chunk);
      assert stream[..n + 1] == stream[..n] + [chunk];
      chunks, held := Receive(chunks, held, chunk, max, whole);
      whole := whole + chunk;
    }
    assert stream[..|stream|] == stream;
    blob := SliceFromEnd(Concat(chunks), max);
    if 0 < max {
      LastOfSuffix(Concat(chunks), whole, max);
    } else if chunks != [] {
      ConcatFront(chunks);
    }
  }

  lemma {:induction false} ChunkWithin(chunks: seq<Bytes>)
    ensures |LastChunk(chunks)| <= |Concat(chunks)|
  {
  }

  /**
    The result is the last max bytes of the stream, none for a limit that is not positive, exactly if the
    limit is positive or the stream's last chunk is no longer than the limit is below zero.
  */
  lemma LimitKeptExactly(stream: seq<Bytes>, max: int)
    ensures TailOf(stream, max) == Last(Concat(stream), if 0 < max then max else 0) <==> 0 < max || |LastChunk(stream)| <= -max
    ensures |TailOf(stream, max)| <= |Concat(stream)|
  {
    ChunkWithin(stream);
    assert Last(Concat(stream), 0) == [];
  }

  // ---------------------------------------------------------------- dropping the first line

  /** What is returned of the kept bytes. */
  function DropFirst(s: Bytes): Bytes { if NoNewline(s) then s else s[LineLength(s)..] }

  /** Everything up to the first newline goes, and nothing else. */
  lemma DropFirstMeans(s: Bytes)
    ensures NL !in s ==> DropFirst(s) == s
    ensures NL in s ==> exists line :: NL !in line && s == line + [NL] + DropFirst(s)
  {
    if NL in s {
      LineAhead(s);
      var n := LineLength(s);
      var line := s[..n][..n - 1];
      assert s[..n] == line + [NL] && s == s[..n] + DropFirst(s);
      assert NL !in line;
    }
  }

  /** If a line ends in the kept bytes, the result starts on a line of the log and holds every line from there on. */
  lemma WholeLinesKept(whole: Bytes, max: nat) returns (before: Bytes, result: Bytes)
    requires !NoNewline(Last(whole, max))
    ensures result == DropFirst(Last(whole, max)) && whole == before + result && before != [] && before[|before| - 1] == NL
    ensures Lines(whole) == Lines(before) + Lines(result) && Rest(whole) == Rest(result)
  {
    before, result := CutAfterLine(whole, Last(whole, max));
    RestEmptyExactly(before);
    LinesAfterLines(before, result);
  }

  lemma CutAfterLine(whole: Bytes, kept: Bytes) returns (before: Bytes, result: Bytes)
    requires IsSuffix(kept, whole) && !NoNewline(kept)
    ensures result == DropFirst(kept) && whole == before + result && before != [] && before[|before| - 1] == NL
  {
    LineAhead(kept);
    var line := kept[..LineLength(kept)];
    before, result := whole[..|whole| - |kept|] + line, DropFirst(kept);
    assert whole == whole[..|whole| - |kept|] + kept && kept == line + result;
  }

  /** The dropped line is a complete line of the log exactly if the kept bytes start on one: a short log loses its first. */
  lemma WholeLineLostExactly(whole: Bytes, max: nat)
    requires !NoNewline(Last(whole, max))
    ensures var kept := Last(whole, max);
            var q := |whole| - |kept|;
            AtBoundary(whole, q) <==> Lines(whole) == Lines(whole[..q]) + ([kept[..LineLength(kept)]] + Lines(DropFirst(kept)))
  {
    var kept := Last(whole, max);
    var q := |whole| - |kept|;
    assert whole[q..] == kept;
    WholeLinesExactly(whole, q);
  }
}
