/** What the chunker promises for every text and every legal pair of options. */
module ChunkingTheorems {
  import opened Text
  import opened Chunking

  ghost predicate Cut(t: JsString, w: Window) {
    w.start < w.end <= |t| && w.body == t[w.start..w.end]
  }

  ghost predicate Follows(w: Window, next: Window) {
    w.start < next.start <= w.end <= next.end
  }

  /** The windows cut `t` from `start` to its end, each begins strictly after the one before and inside it or
      right behind it, and no window ends before its predecessor does. */
  ghost predicate Tiles(t: JsString, ws: seq<Window>, start: nat) {
    && ws != [] && ws[0].start == start && ws[|ws| - 1].end == |t|
    && (forall i :: 0 <= i < |ws| ==> Cut(t, ws[i]))
    && (forall i, j :: 0 <= i < |ws| && j == i + 1 && j < |ws| ==> Follows(ws[i], ws[j]))
  }

  /** A later start never finds an earlier end: a boundary far enough from the later start is one from the earlier. */
  lemma EndsNeverRetreat(t: JsString, size: nat, overlap: nat, start: nat)
    requires ValidOptions(size, overlap) && start < |t| && WindowEnd(t, start, size) < |t|
    ensures var end := WindowEnd(t, start, size);
            end <= WindowEnd(t, NextStart(start, end, overlap), size)
  {
  }

  lemma {:induction false} WindowsTile(t: JsString, size: nat, overlap: nat, start: nat)
    requires ValidOptions(size, overlap) && start < |t|
    ensures Tiles(t, Windows(t, size, overlap, start), start)
    decreases |t| - start
  {
    var end := WindowEnd(t, start, size);
    if end < |t| {
      var next := NextStart(start, end, overlap);
      WindowsTile(t, size, overlap, next);
      EndsNeverRetreat(t, size, overlap, start);
      var ws, rest := Windows(t, size, overlap, start), Windows(t, size, overlap, next);
      assert ws == [Window(start, end, t[start..end])] + rest;
      assert rest[0].end == WindowEnd(t, next, size);
    }
  }

  // ---- Reconstruction

  function Dropped(s: JsString, n: int): JsString {
    if n <= 0 then s else if n <= |s| then s[n..] else []
  }

  /** Lay the windows down one after the other, leaving out what is already there. */
  function Stitched(ws: seq<Window>, upto: nat): JsString {
    if ws == [] then [] else Dropped(ws[0].body, upto - ws[0].start) + Stitched(ws[1..], ws[0].end)
  }

  lemma TilesTail(t: JsString, ws: seq<Window>, start: nat)
    requires Tiles(t, ws, start) && |ws| > 1
    ensures Tiles(t, ws[1..], ws[1].start)
  {
    var rest := ws[1..];
    forall i, j | 0 <= i < |rest| && j == i + 1 && j < |rest| ensures Follows(rest[i], rest[j]) {
      assert rest[i] == ws[i + 1] && rest[j] == ws[j + 1];
    }
  }

  lemma DroppedSlice(t: JsString, start: nat, upto: nat, end: nat)
    requires start <= upto <= end <= |t|
    ensures Dropped(t[start..end], upto - start) == t[upto..end]
    ensures t[upto..end] + t[end..] == t[upto..]
  {
  }

  lemma StitchedFirst(t: JsString, ws: seq<Window>, rest: seq<Window>, upto: nat)
    requires ws != [] && Cut(t, ws[0]) && ws[0].start <= upto <= ws[0].end && rest == ws[1..]
    requires Stitched(rest, ws[0].end) == t[ws[0].end..]
    ensures Stitched(ws, upto) == t[upto..]
  {
    DroppedSlice(t, ws[0].start, upto, ws[0].end);
  }

  lemma {:induction false} StitchTail(t: JsString, ws: seq<Window>, start: nat, upto: nat)
    requires Tiles(t, ws, start) && start <= upto <= ws[0].end
    ensures Stitched(ws, upto) == t[upto..]
    decreases |ws|
  {
    var rest, end := ws[1..], ws[0].end;
    assert Cut(t, ws[0]);
    if |ws| > 1 {
      TilesTail(t, ws, start);
      assert Follows(ws[0], ws[1]);
      StitchTail(t, rest, ws[1].start, end);
    } else {
      assert rest == [] && t[end..] == [];
    }
    StitchedFirst(t, ws, rest, upto);
  }

  /** Nothing of the text is lost or altered: overlaps removed, the windows spell it out again. */
  lemma WindowsReassembleText(t: JsString, size: nat, overlap: nat)
    requires ValidOptions(size, overlap)
    ensures Stitched(Windows(t, size, overlap, 0), 0) == t
  {
    if t != [] {
      WindowsTile(t, size, overlap, 0);
      StitchTail(t, Windows(t, size, overlap, 0), 0, 0);
    }
  }

  // ---- Window length and overlap

  /** A window may be one unit longer than `size`: exactly when a boundary starts at its hard end. */
  lemma OverlongWindow(t: JsString, size: nat, start: nat)
    requires size >= 200 && start < |t|
    ensures WindowEnd(t, start, size) - start <= size + 1
    ensures WindowEnd(t, start, size) - start == size + 1 <==> BoundaryAt(t, start + size)
  {
    if BoundaryAt(t, start + size) {
      assert FarEnough(start + size, start, size);
    }
  }

  /** The largest overlap for which the guard `start + 1` is never needed. */
  function OverlapLimit(size: nat): nat {
    3 * size / 5 + 1
  }

  ghost predicate SharesExactly(ws: seq<Window>, overlap: nat) {
    forall i, j :: 0 <= i < |ws| && j == i + 1 && j < |ws| ==> ws[i].end - ws[j].start == overlap
  }

  lemma SharesWithFirst(w: Window, rest: seq<Window>, overlap: nat)
    requires SharesExactly(rest, overlap) && (rest != [] ==> w.end - rest[0].start == overlap)
    ensures SharesExactly([w] + rest, overlap)
  {
    var ws := [w] + rest;
    forall i, j | 0 <= i < |ws| && j == i + 1 && j < |ws| ensures ws[i].end - ws[j].start == overlap {
      if i > 0 {
        assert ws[i] == rest[i - 1] && ws[j] == rest[j - 1];
      }
    }
  }

  lemma {:induction false} ExactOverlap(t: JsString, size: nat, overlap: nat, start: nat)
    requires ValidOptions(size, overlap) && overlap <= OverlapLimit(size)
    ensures SharesExactly(Windows(t, size, overlap, start), overlap)
    decreases |t| - start
  {
    if start < |t| && WindowEnd(t, start, size) < |t| {
      var end := WindowEnd(t, start, size);
      var next := NextStart(start, end, overlap);
      ExactOverlap(t, size, overlap, next);
      SharesWithFirst(Windows(t, size, overlap, start)[0], Windows(t, size, overlap, next), overlap);
    }
  }

  /** A text whose first window ends as early as it can. */
  function EarlyBoundaryText(size: nat): JsString {
    seq(OverlapLimit(size), _ => 120) + SENTENCE + seq(size, _ => 120)
  }

  lemma ShortOverlap(size: nat, overlap: nat)
    requires ValidOptions(size, overlap) && overlap > OverlapLimit(size)
    ensures !SharesExactly(Windows(EarlyBoundaryText(size), size, overlap, 0), overlap)
  {
    var t, m := EarlyBoundaryText(size), OverlapLimit(size);
    assert OccursAt(t, SENTENCE, m);
    assert FarEnough(m, 0, size);
    forall p | m < p && p + 2 <= |t| ensures !BoundaryAt(t, p) {
      assert t[p + 1] == if p + 1 == m + 1 then 32 else 120;
      assert PARAGRAPH[1] == 10 && SENTENCE[0] == 46 && ARABIC_QUESTION[0] == 0x61F;
    }
    var end := WindowEnd(t, 0, size);
    assert end == m + 1;
    assert NextStart(0, end, overlap) == 1;
    var ws := Windows(t, size, overlap, 0);
    assert ws[1..] == Windows(t, size, overlap, 1);
    assert ws[1] == Windows(t, size, overlap, 1)[0];
    assert ws[0].end - ws[1].start == m;
  }

  /** Neighbouring windows share exactly `overlap` units in every text iff the overlap is within the limit. */
  lemma OverlapExactIff(size: nat, overlap: nat)
    requires ValidOptions(size, overlap)
    ensures (forall t: JsString :: SharesExactly(Windows(t, size, overlap, 0), overlap))
            <==> overlap <= OverlapLimit(size)
  {
    if overlap <= OverlapLimit(size) {
      forall t: JsString ensures SharesExactly(Windows(t, size, overlap, 0), overlap) {
        ExactOverlap(t, size, overlap, 0);
      }
    } else {
      ShortOverlap(size, overlap);
    }
  }

  // ---- How many windows

  /** The least advance of a window whose overlap is within the limit. */
  function LeastAdvance(size: nat, overlap: nat): int {
    OverlapLimit(size) + 1 - overlap
  }

  lemma AdvanceBound(t: JsString, size: nat, overlap: nat, start: nat)
    requires ValidOptions(size, overlap) && overlap <= OverlapLimit(size)
    requires start < |t| && WindowEnd(t, start, size) < |t|
    ensures NextStart(start, WindowEnd(t, start, size), overlap) - start >= LeastAdvance(size, overlap) >= 1
  {
  }

  lemma OneMore(total: int, later: int, step: int, room: int, advance: int)
    requires total == later + 1 && (later - 1) * step < room && step <= advance
    ensures (total - 1) * step < room + advance
  {
    assert later * step == (later - 1) * step + step;
  }

  lemma OnlyOne(total: int, step: int, room: int)
    requires total == 1 && room > 0
    ensures (total - 1) * step < room
  {
  }

  lemma {:induction false} WindowsAtMost(t: JsString, size: nat, overlap: nat, start: nat)
    requires ValidOptions(size, overlap) && start < |t|
    ensures 1 <= |Windows(t, size, overlap, start)| <= |t| - start
    decreases |t| - start
  {
    var end := WindowEnd(t, start, size);
    if end < |t| {
      WindowsAtMost(t, size, overlap, NextStart(start, end, overlap));
    }
  }

  lemma {:induction false} WindowsLinear(t: JsString, size: nat, overlap: nat, start: nat, step: int)
    requires ValidOptions(size, overlap) && start < |t| && overlap <= OverlapLimit(size)
    requires step == LeastAdvance(size, overlap)
    ensures (|Windows(t, size, overlap, start)| - 1) * step < |t| - start
    decreases |t| - start
  {
    var end := WindowEnd(t, start, size);
    if end < |t| {
      var next := NextStart(start, end, overlap);
      WindowsLinear(t, size, overlap, next, step);
      AdvanceBound(t, size, overlap, start);
      OneMore(|Windows(t, size, overlap, start)|, |Windows(t, size, overlap, next)|, step, |t| - next, next - start);
    } else {
      OnlyOne(|Windows(t, size, overlap, start)|, step, |t| - start);
    }
  }

  /** There are never more windows than units, and with an overlap within the limit their number is linear. */
  lemma WindowCount(t: JsString, size: nat, overlap: nat, start: nat)
    requires ValidOptions(size, overlap) && start < |t|
    ensures 1 <= |Windows(t, size, overlap, start)| <= |t| - start
    ensures overlap <= OverlapLimit(size) ==>
              (|Windows(t, size, overlap, start)| - 1) * LeastAdvance(size, overlap) < |t| - start
  {
    WindowsAtMost(t, size, overlap, start);
    if overlap <= OverlapLimit(size) {
      WindowsLinear(t, size, overlap, start, LeastAdvance(size, overlap));
    }
  }

  // ---- Chunks

  ghost predicate ComesFrom(c: Chunk, w: Window) {
    c.start == w.start && c.end == w.end && c.text == Trim(w.body) && c.text != []
  }

  lemma {:induction false} EmittedInOrder(ws: seq<Window>, j: nat)
    requires j < |Emitted(ws)|
    ensures Emitted(ws)[j].index == j
    ensures exists i :: 0 <= i < |ws| && ComesFrom(Emitted(ws)[j], ws[i])
  {
    var init := ws[..|ws| - 1];
    if j < |Emitted(init)| {
      EmittedInOrder(init, j);
      var i :| 0 <= i < |init| && ComesFrom(Emitted(init)[j], init[i]);
      assert ComesFrom(Emitted(ws)[j], ws[i]);
    } else {
      assert ComesFrom(Emitted(ws)[j], ws[|ws| - 1]);
    }
  }

  lemma {:induction false} InkIsEmitted(ws: seq<Window>, i: nat) returns (j: nat)
    requires i < |ws| && !Blank(ws[i].body)
    ensures j < |Emitted(ws)| && ComesFrom(Emitted(ws)[j], ws[i])
    ensures i == 0 ==> j == 0
    ensures i == |ws| - 1 ==> j == |Emitted(ws)| - 1
  {
    var init := ws[..|ws| - 1];
    if i == |ws| - 1 {
      j := |Emitted(init)|;
    } else {
      j := InkIsEmitted(init, i);
    }
  }

  lemma {:induction false} SomeWindowHolds(t: JsString, ws: seq<Window>, start: nat, p: nat)
    requires Tiles(t, ws, start) && start <= p < |t|
    ensures exists i :: 0 <= i < |ws| && ws[i].start <= p < ws[i].end
  {
    if p >= ws[0].end {
      TilesTail(t, ws, start);
      assert Follows(ws[0], ws[1]);
      SomeWindowHolds(t, ws[1..], ws[1].start, p);
      var i :| 0 <= i < |ws[1..]| && ws[1..][i].start <= p < ws[1..][i].end;
      assert ws[i + 1].start <= p < ws[i + 1].end;
    }
  }

  ghost predicate Holds(c: Chunk, p: nat) {
    c.start <= p < c.end
  }

  ghost predicate Held(cs: seq<Chunk>, p: nat) {
    exists j :: 0 <= j < |cs| && Holds(cs[j], p)
  }

  lemma ChunkIsCut(t: JsString, ws: seq<Window>, start: nat, j: nat)
    requires Tiles(t, ws, start) && j < |Emitted(ws)|
    ensures CutAs(Emitted(ws)[j], t, j)
  {
    EmittedInOrder(ws, j);
    var i :| 0 <= i < |ws| && ComesFrom(Emitted(ws)[j], ws[i]);
    assert Cut(t, ws[i]);
  }

  lemma InkIsHeld(t: JsString, ws: seq<Window>, p: nat)
    requires Tiles(t, ws, 0) && p < |t| && !IsSpace(t[p])
    ensures Held(Emitted(ws), p)
  {
    SomeWindowHolds(t, ws, 0, p);
    var i :| 0 <= i < |ws| && ws[i].start <= p < ws[i].end;
    assert Cut(t, ws[i]) && ws[i].body[p - ws[i].start] == t[p];
    var j := InkIsEmitted(ws, i);
    assert Holds(Emitted(ws)[j], p);
  }

  lemma HoldsInk(t: JsString, w: Window, p: nat)
    requires Cut(t, w) && w.start <= p < w.end && !IsSpace(t[p])
    ensures !Blank(w.body)
  {
    assert w.body[p - w.start] == t[p];
  }

  lemma FirstAndLast(t: JsString, ws: seq<Window>)
    requires Tiles(t, ws, 0) && t != [] && !IsSpace(t[0]) && !IsSpace(t[|t| - 1])
    ensures var cs := Emitted(ws); cs != [] && cs[0].start == 0 && cs[|cs| - 1].end == |t|
  {
    var last := |ws| - 1;
    assert Cut(t, ws[0]) && Cut(t, ws[last]);
    HoldsInk(t, ws[0], 0);
    HoldsInk(t, ws[last], |t| - 1);
    var first := InkIsEmitted(ws, 0);
    var final := InkIsEmitted(ws, last);
  }

  /** Numbered from zero, each chunk the trimmed text between its two offsets. */
  ghost predicate CutFrom(cs: seq<Chunk>, t: JsString) {
    forall j :: 0 <= j < |cs| ==> CutAs(cs[j], t, j)
  }

  ghost predicate CutAs(c: Chunk, t: JsString, j: nat) {
    c.index == j && c.start < c.end <= |t| && c.text == Trim(t[c.start..c.end]) && c.text != []
  }

  /** No unit but white space is left out. */
  ghost predicate HoldsAllInk(cs: seq<Chunk>, t: JsString) {
    forall p: nat :: p < |t| && !IsSpace(t[p]) ==> Held(cs, p)
  }

  /** The first chunk begins at the first unit, the last ends at the last. */
  ghost predicate Spans(cs: seq<Chunk>, t: JsString) {
    if t == [] then cs == [] else cs != [] && cs[0].start == 0 && cs[|cs| - 1].end == |t|
  }

  lemma TilesCover(t: JsString, ws: seq<Window>)
    requires Tiles(t, ws, 0)
    ensures CutFrom(Emitted(ws), t) && HoldsAllInk(Emitted(ws), t)
  {
    forall j | 0 <= j < |Emitted(ws)| ensures CutAs(Emitted(ws)[j], t, j) {
      ChunkIsCut(t, ws, 0, j);
    }
    forall p: nat | p < |t| && !IsSpace(t[p]) ensures Held(Emitted(ws), p) {
      InkIsHeld(t, ws, p);
    }
  }

  lemma TextCovered(t: JsString, size: nat, overlap: nat)
    requires ValidOptions(size, overlap) && (t != [] ==> !IsSpace(t[0]) && !IsSpace(t[|t| - 1]))
    ensures var cs := ChunksOf(t, size, overlap); CutFrom(cs, t) && HoldsAllInk(cs, t) && Spans(cs, t)
  {
    if t != [] {
      var ws := Windows(t, size, overlap, 0);
      WindowsTile(t, size, overlap, 0);
      TilesCover(t, ws);
      FirstAndLast(t, ws);
    }
  }

  /** What the stored chunks owe every input. */
  lemma ChunksCoverText(input: JsString, size: nat, overlap: nat)
    requires ValidOptions(size, overlap)
    ensures var t, cs := Normalize(input), ChunksOf(Normalize(input), size, overlap);
            CutFrom(cs, t) && HoldsAllInk(cs, t) && Spans(cs, t)
  {
    TextCovered(Normalize(input), size, overlap);
  }
}
