/** The sliding-window chunker of `src/ai/rag/chunk.ts`. */
module Chunking {
  import opened Prelude
  import opened Text

  datatype Chunk = Chunk(index: nat, text: JsString, start: nat, end: nat)
  datatype Window = Window(start: nat, end: nat, body: JsString)
  datatype Outcome = Chunked(chunks: seq<Chunk>) | InvalidOptions

  const DEFAULT_SIZE := 1200
  const DEFAULT_OVERLAP := 150

  const PARAGRAPH: JsString := [10, 10]
  const SENTENCE: JsString := [46, 32]
  const ARABIC_QUESTION: JsString := [0x61F, 32]

  predicate ValidOptions(size: int, overlap: int) {
    size >= 200 && 0 <= overlap < size
  }

  function Normalize(input: JsString): (t: JsString)
    ensures t != [] ==> !IsSpace(t[0]) && !IsSpace(t[|t| - 1])
  {
    Trim(UnixNewlines(input))
  }

  /** A paragraph break, a sentence end or an Arabic question mark starts at `p`. */
  predicate BoundaryAt(t: JsString, p: int) {
    OccursAt(t, PARAGRAPH, p) || OccursAt(t, SENTENCE, p) || OccursAt(t, ARABIC_QUESTION, p)
  }

  /** That is: two line feeds, a full stop and a space, or an Arabic question mark and a space. */
  lemma BoundaryUnits(t: JsString, p: int)
    ensures BoundaryAt(t, p) <==>
              0 <= p && p + 1 < |t| && (t[p], t[p + 1]) in {(10, 10), (46, 32), (0x61F, 32)}
  {
    PairOccurs(t, PARAGRAPH, p);
    PairOccurs(t, SENTENCE, p);
    PairOccurs(t, ARABIC_QUESTION, p);
  }

  lemma PairOccurs(t: JsString, pattern: JsString, p: int)
    requires |pattern| == 2
    ensures OccursAt(t, pattern, p) <==> 0 <= p && p + 1 < |t| && t[p] == pattern[0] && t[p + 1] == pattern[1]
  {
    if OccursAt(t, pattern, p) {
      assert t[p + 0] == pattern[0] && t[p + 1] == pattern[1];
    }
  }

  function LastBoundary(t: JsString, hardEnd: nat): (b: int)
    ensures -1 <= b <= hardEnd
    ensures b >= 0 ==> BoundaryAt(t, b)
    ensures forall p :: b < p <= hardEnd ==> !BoundaryAt(t, p)
  {
    Max(LastIndexOf(t, PARAGRAPH, hardEnd),
        Max(LastIndexOf(t, SENTENCE, hardEnd), LastIndexOf(t, ARABIC_QUESTION, hardEnd)))
  }

  /** Past sixty percent of the window; the source compares with the real number 0.6 * size. */
  predicate FarEnough(p: int, start: int, size: int) {
    5 * (p - start) > 3 * size
  }

  function WindowEnd(t: JsString, start: nat, size: nat): (end: nat)
    requires start < |t| && size >= 200
    ensures start < end <= |t|
    // the text ends inside the window, and the window takes all of it
    ensures start + size >= |t| ==> end == |t|
    // otherwise it is cut just after the first unit of the last boundary far enough in, if there is one
    ensures start + size < |t| ==>
              if exists p :: FarEnough(p, start, size) && p <= start + size && BoundaryAt(t, p)
              then BoundaryAt(t, end - 1) && FarEnough(end - 1, start, size) && end - 1 <= start + size
                   && forall p :: end <= p <= start + size ==> !BoundaryAt(t, p)
              else end == start + size
  {
    var hardEnd := Min(start + size, |t|);
    var boundary := LastBoundary(t, hardEnd);
    if hardEnd < |t| && FarEnough(boundary, start, size) then boundary + 1 else hardEnd
  }

  function NextStart(start: nat, end: nat, overlap: nat): (next: nat)
    requires start < end
    ensures start < next <= end
  {
    Max(end - overlap, start + 1)
  }

  /** The windows the loop visits from `start` on. */
  function Windows(t: JsString, size: nat, overlap: nat, start: nat): seq<Window>
    requires ValidOptions(size, overlap)
    decreases |t| - start
  {
    if start >= |t| then []
    else
      var end := WindowEnd(t, start, size);
      [Window(start, end, t[start..end])]
      + if end >= |t| then [] else Windows(t, size, overlap, NextStart(start, end, overlap))
  }

  /** The chunk a window yields: none when it is all white space. */
  function Push(w: Window, index: nat): seq<Chunk> {
    var text := Trim(w.body);
    if text == [] then [] else [Chunk(index, text, w.start, w.end)]
  }

  /** The chunks pushed once these windows have been visited. */
  function Emitted(ws: seq<Window>): seq<Chunk> {
    if ws == [] then []
    else
      var before := Emitted(ws[..|ws| - 1]);
      before + Push(ws[|ws| - 1], |before|)
  }

  function ChunksOf(t: JsString, size: nat, overlap: nat): seq<Chunk>
    requires ValidOptions(size, overlap)
  {
    Emitted(Windows(t, size, overlap, 0))
  }

  lemma EmittedNext(visited: seq<Window>, w: Window)
    ensures Emitted(visited + [w]) == Emitted(visited) + Push(w, |Emitted(visited)|)
  {
    assert (visited + [w])[..|visited|] == visited;
  }

  function WindowAt(t: JsString, size: nat, start: nat): Window
    requires start < |t| && size >= 200
  {
    var end := WindowEnd(t, start, size);
    Window(start, end, t[start..end])
  }

  /** These windows have been visited, and the loop stands at `start`. */
  ghost predicate StandsAt(t: JsString, size: nat, overlap: nat, visited: seq<Window>, start: nat)
    requires ValidOptions(size, overlap)
  {
    visited + Windows(t, size, overlap, start) == Windows(t, size, overlap, 0)
  }

  lemma Regroup(visited: seq<Window>, w: Window, rest: seq<Window>)
    ensures visited + ([w] + rest) == (visited + [w]) + rest
  {
  }

  lemma Advance(t: JsString, size: nat, overlap: nat, visited: seq<Window>, start: nat)
    requires ValidOptions(size, overlap) && start < |t| && StandsAt(t, size, overlap, visited, start)
    ensures var w := WindowAt(t, size, start);
            if w.end < |t| then StandsAt(t, size, overlap, visited + [w], NextStart(start, w.end, overlap))
            else visited + [w] == Windows(t, size, overlap, 0)
  {
    var w := WindowAt(t, size, start);
    if w.end < |t| {
      Regroup(visited, w, Windows(t, size, overlap, NextStart(start, w.end, overlap)));
    } else {
      assert [w] + [] == [w];
    }
  }

  lemma BeginAndEnd(t: JsString, size: nat, overlap: nat, visited: seq<Window>, start: nat)
    requires ValidOptions(size, overlap)
    ensures StandsAt(t, size, overlap, [], 0)
    ensures start >= |t| && StandsAt(t, size, overlap, visited, start) ==> visited == Windows(t, size, overlap, 0)
  {
    assert [] + Windows(t, size, overlap, 0) == Windows(t, size, overlap, 0);
    assert visited + [] == visited;
  }

  method FindEnd(t: JsString, start: nat, size: nat) returns (end: nat)
    requires start < |t| && size >= 200
    ensures end == WindowEnd(t, start, size)
  {
    var hardEnd := Min(start + size, |t|);
    var boundary := LastBoundary(t, hardEnd);
    end := hardEnd;
    if hardEnd < |t| && FarEnough(boundary, start, size) {
      end := boundary + 1;
    }
  }

  /** One window: where it ends, and the chunks with what it adds to them. */
  method Visit(t: JsString, size: nat, start: nat, chunks: seq<Chunk>, ghost visited: seq<Window>)
    returns (end: nat, more: seq<Chunk>)
    requires start < |t| && size >= 200 && chunks == Emitted(visited)
    ensures end == WindowEnd(t, start, size)
    ensures more == Emitted(visited + [WindowAt(t, size, start)])
  {
    end := FindEnd(t, start, size);
    EmittedNext(visited, WindowAt(t, size, start));
    var text := Trim(t[start..end]);
    more := chunks;
    if text != [] {
      more := more + [Chunk(|chunks|, text, start, end)];
    }
  }

  method ChunkText(input: JsString, size: int, overlap: int) returns (r: Outcome)
    ensures r.InvalidOptions? <==> !ValidOptions(size, overlap)
    ensures r.Chunked? ==> r.chunks == ChunksOf(Normalize(input), size, overlap)
  {
    if size < 200 || overlap < 0 || overlap >= size {
      return InvalidOptions;
    }
    var t := Normalize(input);
    var chunks: seq<Chunk> := [];
    var start: nat := 0;
    ghost var visited: seq<Window> := [];
    BeginAndEnd(t, size, overlap, [], 0);
    while start < |t|
      invariant StandsAt(t, size, overlap, visited, start) && chunks == Emitted(visited)
      decreases |t| - start
    {
      Advance(t, size, overlap, visited, start);
      var end;
      end, chunks := Visit(t, size, start, chunks, visited);
      visited := visited + [WindowAt(t, size, start)];
      if end >= |t| {
        return Chunked(chunks);
      }
      start := NextStart(start, end, overlap);
    }
    BeginAndEnd(t, size, overlap, visited, start);
    return Chunked(chunks);
  }
}
