/** Where the chunks of a text stand in the text that came in. */
module ChunkingCoverage {
  import opened Text
  import opened Chunking
  import opened ChunkingTheorems

  /** The chunk's text stands in `t` at `from`. */
  ghost predicate StandsIn(c: Chunk, t: JsString, from: nat) {
    from + |c.text| <= |t| && t[from..from + |c.text|] == c.text
  }

  ghost predicate AllStandIn(cs: seq<Chunk>, t: JsString, froms: seq<nat>) {
    |froms| == |cs| && forall j :: 0 <= j < |cs| ==> StandsIn(cs[j], t, froms[j])
  }

  /** No chunk begins or ends before an earlier one does. */
  ghost predicate InOrder(cs: seq<Chunk>, froms: seq<nat>)
    requires |froms| == |cs|
  {
    forall j, k :: 0 <= j < k < |cs| ==>
      froms[j] <= froms[k] && froms[j] + |cs[j].text| <= froms[k] + |cs[k].text|
  }

  ghost predicate InSomeText(cs: seq<Chunk>, froms: seq<nat>, p: nat)
    requires |froms| == |cs|
  {
    exists j :: 0 <= j < |cs| && froms[j] <= p < froms[j] + |cs[j].text|
  }

  // ---- One chunk

  function From(t: JsString, c: Chunk): nat
    requires c.start <= c.end <= |t|
  {
    c.start + InkStart(t[c.start..c.end], 0)
  }

  lemma TrimmedFrom(body: JsString)
    requires Trim(body) != []
    ensures var a := InkStart(body, 0);
            var b := a + |Trim(body)|;
            && a < b <= |body| && Trim(body) == body[a..b] && !IsSpace(body[a]) && !IsSpace(body[b - 1])
            && forall i :: 0 <= i < |body| && !IsSpace(body[i]) ==> a <= i < b
  {
  }

  /** What stands in a slice stands in the text it was cut from, that much further on. */
  lemma SliceInText(t: JsString, start: nat, end: nat, a: nat, b: nat)
    requires start <= end <= |t| && a <= b <= end - start
    ensures t[start + a..start + b] == t[start..end][a..b]
  {
    var body := t[start..end];
    forall k | 0 <= k < b - a ensures body[a..b][k] == t[start + a..start + b][k] {
      assert body[a + k] == t[start + a + k];
    }
    assert |body[a..b]| == |t[start + a..start + b]|;
  }

  lemma InkOfSlice(t: JsString, start: nat, end: nat, a: nat, b: nat)
    requires start <= end <= |t|
    requires var body := t[start..end]; forall i :: 0 <= i < |body| && !IsSpace(body[i]) ==> a <= i < b
    ensures forall p :: start <= p < end && !IsSpace(t[p]) ==> start + a <= p < start + b
  {
    forall p | start <= p < end && !IsSpace(t[p]) ensures start + a <= p < start + b {
      assert t[start..end][p - start] == t[p];
    }
  }

  lemma ChunkSlice(t: JsString, c: Chunk, j: nat)
    requires CutAs(c, t, j)
    ensures var from := From(t, c); StandsIn(c, t, from) && c.start <= from && from + |c.text| <= c.end
  {
    var a := InkStart(t[c.start..c.end], 0);
    TrimmedFrom(t[c.start..c.end]);
    SliceInText(t, c.start, c.end, a, a + |c.text|);
  }

  lemma ChunkEnds(t: JsString, c: Chunk, j: nat)
    requires CutAs(c, t, j)
    ensures StandsIn(c, t, From(t, c)) && !IsSpace(t[From(t, c)]) && !IsSpace(t[From(t, c) + |c.text| - 1])
  {
    ChunkSlice(t, c, j);
    var from := From(t, c);
    assert c.text[0] == t[from..from + |c.text|][0];
    assert c.text[|c.text| - 1] == t[from..from + |c.text|][|c.text| - 1];
  }

  lemma ChunkInk(t: JsString, c: Chunk, j: nat)
    requires CutAs(c, t, j)
    ensures forall p :: c.start <= p < c.end && !IsSpace(t[p]) ==> From(t, c) <= p < From(t, c) + |c.text|
  {
    var a := InkStart(t[c.start..c.end], 0);
    TrimmedFrom(t[c.start..c.end]);
    InkOfSlice(t, c.start, c.end, a, a + |c.text|);
  }

  /** Between its offsets the chunk's text reaches from the first unit that is not white space to the last. */
  lemma ChunkStands(t: JsString, c: Chunk, j: nat)
    requires CutAs(c, t, j)
    ensures var from, upto := From(t, c), From(t, c) + |c.text|;
            && StandsIn(c, t, from) && c.start <= from < upto <= c.end
            && !IsSpace(t[from]) && !IsSpace(t[upto - 1])
            && forall p :: c.start <= p < c.end && !IsSpace(t[p]) ==> from <= p < upto
  {
    ChunkSlice(t, c, j);
    ChunkEnds(t, c, j);
    ChunkInk(t, c, j);
  }

  lemma ChunksStandInOrder(t: JsString, c: Chunk, j: nat, d: Chunk, k: nat)
    requires CutAs(c, t, j) && CutAs(d, t, k) && c.start <= d.start && c.end <= d.end
    ensures From(t, c) <= From(t, d) && From(t, c) + |c.text| <= From(t, d) + |d.text|
  {
    ChunkStands(t, c, j);
    ChunkStands(t, d, k);
  }

  // ---- The order of the chunks

  ghost predicate Ascending(ws: seq<Window>) {
    forall i, j :: 0 <= i < j < |ws| ==> ws[i].start < ws[j].start && ws[i].end <= ws[j].end
  }

  lemma {:induction false} TilesAscend(t: JsString, ws: seq<Window>, start: nat, i: nat, j: nat)
    requires Tiles(t, ws, start) && i < j < |ws|
    ensures ws[i].start < ws[j].start && ws[i].end <= ws[j].end
  {
    assert Follows(ws[j - 1], ws[j]);
    if i < j - 1 {
      TilesAscend(t, ws, start, i, j - 1);
    }
  }

  predicate Before(c: Chunk, d: Chunk) {
    c.start < d.start && c.end <= d.end
  }

  ghost predicate InSequence(cs: seq<Chunk>) {
    forall j, k :: 0 <= j < k < |cs| ==> Before(cs[j], cs[k])
  }

  lemma BeforeLast(ws: seq<Window>, j: nat, d: Chunk)
    requires ws != [] && Ascending(ws) && j < |Emitted(ws[..|ws| - 1])|
    requires d.start == ws[|ws| - 1].start && d.end == ws[|ws| - 1].end
    ensures Before(Emitted(ws[..|ws| - 1])[j], d)
  {
    var init := ws[..|ws| - 1];
    EmittedInOrder(init, j);
    var i :| 0 <= i < |init| && ComesFrom(Emitted(init)[j], init[i]);
    assert ws[i].start < ws[|ws| - 1].start && ws[i].end <= ws[|ws| - 1].end;
  }

  lemma SequenceGrows(cs: seq<Chunk>, added: seq<Chunk>)
    requires InSequence(cs) && |added| <= 1
    requires forall j :: 0 <= j < |cs| && added != [] ==> Before(cs[j], added[0])
    ensures InSequence(cs + added)
  {
  }

  lemma {:induction false} EmittedAscend(ws: seq<Window>)
    requires Ascending(ws)
    ensures InSequence(Emitted(ws))
  {
    if ws != [] {
      var init, last := ws[..|ws| - 1], ws[|ws| - 1];
      assert Ascending(init);
      EmittedAscend(init);
      var added := Push(last, |Emitted(init)|);
      forall j | 0 <= j < |Emitted(init)| && added != [] ensures Before(Emitted(init)[j], added[0]) {
        BeforeLast(ws, j, added[0]);
      }
      SequenceGrows(Emitted(init), added);
    }
  }

  lemma ChunksAscend(t: JsString, size: nat, overlap: nat)
    requires ValidOptions(size, overlap)
    ensures InSequence(ChunksOf(t, size, overlap))
  {
    var ws := Windows(t, size, overlap, 0);
    if t != [] {
      WindowsTile(t, size, overlap, 0);
      forall i, l | 0 <= i < l < |ws| ensures ws[i].start < ws[l].start && ws[i].end <= ws[l].end {
        TilesAscend(t, ws, 0, i, l);
      }
    }
    EmittedAscend(ws);
  }

  // ---- All chunks

  function Places(t: JsString, cs: seq<Chunk>): seq<nat>
    requires forall j :: 0 <= j < |cs| ==> cs[j].start <= cs[j].end <= |t|
  {
    seq(|cs|, j requires 0 <= j < |cs| => From(t, cs[j]))
  }

  lemma PlacesInOrder(t: JsString, cs: seq<Chunk>)
    requires CutFrom(cs, t) && InSequence(cs)
    ensures forall j :: 0 <= j < |cs| ==> CutAs(cs[j], t, j)
    ensures AllStandIn(cs, t, Places(t, cs)) && InOrder(cs, Places(t, cs))
  {
    var froms := Places(t, cs);
    forall j | 0 <= j < |cs| ensures StandsIn(cs[j], t, froms[j]) {
      ChunkStands(t, cs[j], j);
    }
    forall j, k | 0 <= j < k < |cs|
      ensures froms[j] <= froms[k] && froms[j] + |cs[j].text| <= froms[k] + |cs[k].text|
    {
      assert Before(cs[j], cs[k]);
      ChunksStandInOrder(t, cs[j], j, cs[k], k);
    }
  }

  lemma InkStands(t: JsString, cs: seq<Chunk>, p: nat)
    requires CutFrom(cs, t) && p < |t| && !IsSpace(t[p]) && Held(cs, p)
    ensures forall j :: 0 <= j < |cs| ==> CutAs(cs[j], t, j)
    ensures InSomeText(cs, Places(t, cs), p)
  {
    var j :| 0 <= j < |cs| && Holds(cs[j], p);
    ChunkStands(t, cs[j], j);
    assert Places(t, cs)[j] <= p < Places(t, cs)[j] + |cs[j].text|;
  }

  ghost predicate InkInTexts(t: JsString, cs: seq<Chunk>, froms: seq<nat>)
    requires |froms| == |cs|
  {
    forall p: nat :: p < |t| && !IsSpace(t[p]) ==> InSomeText(cs, froms, p)
  }

  lemma TextStands(t: JsString, size: nat, overlap: nat) returns (froms: seq<nat>)
    requires ValidOptions(size, overlap) && (t != [] ==> !IsSpace(t[0]) && !IsSpace(t[|t| - 1]))
    ensures var cs := ChunksOf(t, size, overlap);
            AllStandIn(cs, t, froms) && InOrder(cs, froms) && InkInTexts(t, cs, froms)
  {
    var cs := ChunksOf(t, size, overlap);
    TextCovered(t, size, overlap);
    ChunksAscend(t, size, overlap);
    PlacesInOrder(t, cs);
    froms := Places(t, cs);
    forall p: nat | p < |t| && !IsSpace(t[p]) ensures InSomeText(cs, froms, p) {
      InkStands(t, cs, p);
    }
  }

  // ---- In a longer text

  function Moved(froms: seq<nat>, offset: nat): seq<nat> {
    seq(|froms|, j requires 0 <= j < |froms| => offset + froms[j])
  }

  lemma StandsFurther(u: JsString, a: nat, b: nat, cs: seq<Chunk>, froms: seq<nat>)
    requires a <= b <= |u| && AllStandIn(cs, u[a..b], froms) && InOrder(cs, froms)
    ensures AllStandIn(cs, u, Moved(froms, a)) && InOrder(cs, Moved(froms, a))
  {
    forall j | 0 <= j < |cs| ensures StandsIn(cs[j], u, a + froms[j]) {
      assert StandsIn(cs[j], u[a..b], froms[j]);
      SliceInText(u, a, b, froms[j], froms[j] + |cs[j].text|);
      assert a + froms[j] + |cs[j].text| == a + (froms[j] + |cs[j].text|);
    }
  }

  lemma InkBetween(u: JsString, a: nat, b: nat)
    requires a <= b <= |u| && Blank(u[..a]) && Blank(u[b..])
    ensures forall p: nat :: p < |u| && !IsSpace(u[p]) ==> a <= p < b
  {
    forall p: nat | p < a ensures IsSpace(u[p]) {
      assert u[..a][p] == u[p];
    }
    forall p: nat | b <= p < |u| ensures IsSpace(u[p]) {
      assert u[b..][p - b] == u[p];
    }
  }

  lemma InkFurther(u: JsString, a: nat, b: nat, cs: seq<Chunk>, froms: seq<nat>)
    requires a <= b <= |u| && |froms| == |cs| && InkInTexts(u[a..b], cs, froms) && Blank(u[..a]) && Blank(u[b..])
    ensures InkInTexts(u, cs, Moved(froms, a))
  {
    forall p: nat | p < |u| && !IsSpace(u[p]) ensures InSomeText(cs, Moved(froms, a), p) {
      InkBetween(u, a, b);
      assert u[a..b][p - a] == u[p];
      assert InSomeText(cs, froms, p - a);
      var j :| 0 <= j < |cs| && froms[j] <= p - a < froms[j] + |cs[j].text|;
      assert Moved(froms, a)[j] <= p < Moved(froms, a)[j] + |cs[j].text|;
    }
  }

  /** Every chunk's text stands in the input, line ends normalized, at places that go forward; and every unit of it that
      is not white space lies in the text of a chunk. */
  lemma ChunksHoldTheInput(input: JsString, size: nat, overlap: nat) returns (froms: seq<nat>)
    requires ValidOptions(size, overlap)
    ensures var cs, u := ChunksOf(Normalize(input), size, overlap), UnixNewlines(input);
            && AllStandIn(cs, u, froms) && InOrder(cs, froms)
            && forall p: nat :: p < |u| && !IsSpace(u[p]) ==> InSomeText(cs, froms, p)
  {
    var u := UnixNewlines(input);
    var a, b := TrimCuts(u);
    var cs := ChunksOf(Normalize(input), size, overlap);
    var places := TextStands(Normalize(input), size, overlap);
    StandsFurther(u, a, b, cs, places);
    InkFurther(u, a, b, cs, places);
    froms := Moved(places, a);
  }
}
