/** The table `knowledge_chunks` and the statements by which `processDocument` in `src/ai/jobs/service.ts` replaces the
    chunks of a document. */
module KnowledgeChunks {
  import opened Text
  import opened Chunking
  import opened ChunkingTheorems

  /** The unique index of the table. */
  datatype ChunkKey = ChunkKey(document: nat, index: nat)

  datatype StoredChunk = StoredChunk(content: JsString, tokenEstimate: nat, start: nat, end: nat)

  type ChunkTable = map<ChunkKey, StoredChunk>

  function RowFor(c: Chunk): StoredChunk {
    StoredChunk(c.text, (|c.text| + 3) / 4, c.start, c.end)
  }

  /** What the source cuts a document's text into. */
  function ChunksOfText(text: JsString): seq<Chunk> {
    ChunksOf(Normalize(text), DEFAULT_SIZE, DEFAULT_OVERLAP)
  }

  // ---- The statements of the transaction

  function DeleteChunks(table: ChunkTable, d: nat): ChunkTable {
    map k | k in table && k.document != d :: table[k]
  }

  function InsertChunks(table: ChunkTable, d: nat, cs: seq<Chunk>): ChunkTable {
    if cs == [] then table
    else
      var last := cs[|cs| - 1];
      InsertChunks(table, d, cs[..|cs| - 1])[ChunkKey(d, last.index) := RowFor(last)]
  }

  function ReplaceChunks(table: ChunkTable, d: nat, text: JsString): ChunkTable {
    InsertChunks(DeleteChunks(table, d), d, ChunksOfText(text))
  }

  /** The insert does not violate the unique index. */
  ghost predicate CanInsert(table: ChunkTable, d: nat, cs: seq<Chunk>) {
    && (forall i :: 0 <= i < |cs| ==> ChunkKey(d, cs[i].index) !in table)
    && (forall i, j :: 0 <= i < j < |cs| ==> cs[i].index != cs[j].index)
  }

  // ---- What they come to

  ghost predicate Numbered(cs: seq<Chunk>) {
    forall i :: 0 <= i < |cs| ==> cs[i].index == i
  }

  lemma ChunksAreNumbered(text: JsString)
    ensures Numbered(ChunksOfText(text))
  {
    var ws := Windows(Normalize(text), DEFAULT_SIZE, DEFAULT_OVERLAP, 0);
    forall i | 0 <= i < |Emitted(ws)| ensures Emitted(ws)[i].index == i {
      EmittedInOrder(ws, i);
    }
  }

  /** The insert that follows the delete never violates the unique index. */
  lemma InsertNeverFails(table: ChunkTable, d: nat, text: JsString)
    ensures CanInsert(DeleteChunks(table, d), d, ChunksOfText(text))
  {
    ChunksAreNumbered(text);
  }

  /** The rows of `d` are exactly these chunks, each under its own number. */
  ghost predicate HoldsExactly(table: ChunkTable, d: nat, cs: seq<Chunk>) {
    forall k: ChunkKey :: k.document == d ==>
      (k in table <==> k.index < |cs|) && (k in table ==> table[k] == RowFor(cs[k.index]))
  }

  ghost predicate SameElsewhere(before: ChunkTable, after: ChunkTable, d: nat) {
    forall k: ChunkKey :: k.document != d ==> (k in after <==> k in before) && (k in after ==> after[k] == before[k])
  }

  lemma {:induction false} InsertedRows(table: ChunkTable, d: nat, cs: seq<Chunk>)
    requires Numbered(cs) && forall k :: k in table ==> k.document != d
    ensures HoldsExactly(InsertChunks(table, d, cs), d, cs) && SameElsewhere(table, InsertChunks(table, d, cs), d)
  {
    if cs != [] {
      var init := cs[..|cs| - 1];
      assert forall i :: 0 <= i < |init| ==> init[i] == cs[i];
      InsertedRows(table, d, init);
    }
  }

  /** After the transaction the rows of the document are the chunks of its text, whatever was there before, and no other
      document's rows have changed. */
  lemma ReplacedRows(table: ChunkTable, d: nat, text: JsString)
    ensures HoldsExactly(ReplaceChunks(table, d, text), d, ChunksOfText(text))
    ensures SameElsewhere(table, ReplaceChunks(table, d, text), d)
  {
    ChunksAreNumbered(text);
    InsertedRows(DeleteChunks(table, d), d, ChunksOfText(text));
  }

  lemma SameRows(before: ChunkTable, after: ChunkTable, d: nat, cs: seq<Chunk>)
    requires HoldsExactly(before, d, cs) && HoldsExactly(after, d, cs) && SameElsewhere(before, after, d)
    ensures after == before
  {
    forall k ensures (k in after <==> k in before) && (k in after ==> after[k] == before[k]) {
      if k.document == d {
        assert k in after <==> k.index < |cs|;
      }
    }
  }

  /** Row by row: under the document and each number below that of the chunks stands that chunk's text, a quarter of its
      length rounded up, and its two offsets; the chunks are those of 1200 units with an overlap of 150. */
  lemma StoredRows(table: ChunkTable, d: nat, text: JsString, i: nat)
    ensures var cs, rows := ChunksOf(Normalize(text), 1200, 150), ReplaceChunks(table, d, text);
            && (ChunkKey(d, i) in rows <==> i < |cs|)
            && (i < |cs| ==>
                  var row := rows[ChunkKey(d, i)];
                  && cs[i].index == i && row.content == cs[i].text && row.start == cs[i].start && row.end == cs[i].end
                  && 4 * row.tokenEstimate - 3 <= |cs[i].text| <= 4 * row.tokenEstimate)
  {
    ChunksAreNumbered(text);
    ReplacedRows(table, d, text);
  }

  /** Where the rows of the document are already the chunks of its text, the transaction changes nothing. */
  lemma ReplaceAgain(table: ChunkTable, d: nat, text: JsString)
    requires HoldsExactly(table, d, ChunksOfText(text))
    ensures ReplaceChunks(table, d, text) == table
  {
    ReplacedRows(table, d, text);
    SameRows(table, ReplaceChunks(table, d, text), d, ChunksOfText(text));
  }

  method InsertRows(table: ChunkTable, d: nat, cs: seq<Chunk>) returns (r: ChunkTable)
    requires CanInsert(table, d, cs)
    ensures r == InsertChunks(table, d, cs)
  {
    r := table;
    for i := 0 to |cs|
      invariant r == InsertChunks(table, d, cs[..i])
    {
      assert cs[..i + 1][..i] == cs[..i];
      r := r[ChunkKey(d, cs[i].index) := RowFor(cs[i])];
    }
    assert cs[..|cs|] == cs;
  }
}
