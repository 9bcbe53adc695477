/** The schemas stored with a tool against the hash stored beside them: when the hash identifies both schemas, as the
    validator cache of `src/ai/mcp/validation.ts` takes it to, and when the upsert in `src/ai/mcp/service.ts` breaks
    it. */
module ToolSchemas {
  import opened Prelude
  import opened Discovery
  import opened Catalog
  import opened ValidatorCache

  const INPUT := "inputSchema"
  const OUTPUT := "outputSchema"
  const HASH := "schemaHash"

  function Lookup(columns: map<string, Value>, column: string): Option<Value> {
    if column in columns then Some(columns[column]) else None
  }

  /** The hash is the digest of the two schemas that stand beside it. */
  predicate Honest(columns: map<string, Value>) {
    && INPUT in columns && HASH in columns
    && columns[HASH] == Digest(columns[INPUT], Lookup(columns, OUTPUT))
  }

  predicate ToolListing(ds: seq<Descriptor>) {
    forall i :: 0 <= i < |ds| ==> Honest(ds[i].columns)
  }

  predicate ListsTools(h: seq<Event>) {
    forall i :: 0 <= i < |h| && h[i].Synced? ==> ToolListing(h[i].items)
  }

  // ---- What a history of syncs leaves in the columns

  /** Everything listed over a history, in order. */
  function AllListed(h: seq<Event>): seq<Descriptor> {
    if h == [] then []
    else AllListed(h[..|h| - 1]) + if h[|h| - 1].Synced? then h[|h| - 1].items else []
  }

  lemma {:induction false} DescribedTwice(a: seq<Descriptor>, b: seq<Descriptor>, k: string)
    ensures Described(a + b, k) == Described(a, k) + Described(b, k)
  {
    if b == [] {
      assert a + b == a;
    } else {
      var init := b[..|b| - 1];
      assert (a + b)[..|a + b| - 1] == a + init;
      DescribedTwice(a, init, k);
      MergeAssociates(Described(a, k), Described(init, k), if b[|b| - 1].key == k then b[|b| - 1].columns else map[]);
    }
  }

  /** A row's columns are those of everything ever listed under its key, merged; operators and failures change none. */
  lemma {:induction false} ColumnsOfHistory(h: seq<Event>, k: string)
    ensures Columns(Play(h), k) == Described(AllListed(h), k)
  {
    if h != [] {
      var init, last := h[..|h| - 1], h[|h| - 1];
      ColumnsOfHistory(init, k);
      if last.Synced? {
        DescribedTwice(AllListed(init), last.items, k);
        ReconcileClosed(Play(init), Found(last.items, false), k);
        UpsertAllClosed(Play(init), last.items, k);
      } else {
        assert AllListed(init) + [] == AllListed(init);
      }
    }
  }

  ghost predicate ListedWithOutput(ds: seq<Descriptor>, k: string) {
    exists i :: 0 <= i < |ds| && ds[i].key == k && OUTPUT in ds[i].columns
  }

  /** The i-th descriptor is the last one listed under `k`. */
  predicate LastListing(ds: seq<Descriptor>, i: nat, k: string)
    requires i < |ds|
  {
    ds[i].key == k && forall j :: i < j < |ds| ==> ds[j].key != k
  }

  lemma {:induction false} OutputStays(ds: seq<Descriptor>, k: string)
    ensures OUTPUT in Described(ds, k) <==> ListedWithOutput(ds, k)
  {
    if ds != [] {
      var n := |ds| - 1;
      var init := ds[..n];
      OutputStays(init, k);
      if ListedWithOutput(init, k) {
        var i :| 0 <= i < n && init[i].key == k && OUTPUT in init[i].columns;
        assert ds[i] == init[i];
      }
      if ListedWithOutput(ds, k) && !(ds[n].key == k && OUTPUT in ds[n].columns) {
        var i :| 0 <= i < |ds| && ds[i].key == k && OUTPUT in ds[i].columns;
        assert init[i] == ds[i];
      }
    }
  }

  /** The stored hash identifies the stored schemas iff the last listing of the tool has an output schema or none ever
      had. */
  lemma {:induction false} HonestIff(ds: seq<Descriptor>, last: nat, k: string)
    requires ToolListing(ds) && last < |ds| && LastListing(ds, last, k)
    ensures Honest(Described(ds, k)) <==> (OUTPUT in ds[last].columns || !ListedWithOutput(ds, k))
  {
    var n := |ds| - 1;
    var init, d := ds[..n], ds[n];
    OutputStays(ds, k);
    OutputStays(init, k);
    if last == n {
      assert Honest(d.columns);
      assert Described(ds, k) == Described(init, k) + d.columns;
    } else {
      assert LastListing(init, last, k);
      assert Described(ds, k) == Described(init, k) + map[];
      assert Described(init, k) + map[] == Described(init, k);
      HonestIff(init, last, k);
    }
  }

  lemma {:induction false} AllListedAreTools(h: seq<Event>)
    requires ListsTools(h)
    ensures ToolListing(AllListed(h))
  {
    if h != [] {
      AllListedAreTools(h[..|h| - 1]);
    }
  }

  /** The same over any history of syncs, failures and operator choices. */
  lemma StoredHashHonestIff(h: seq<Event>, last: nat, k: string)
    requires ListsTools(h) && last < |AllListed(h)| && LastListing(AllListed(h), last, k)
    ensures Honest(Columns(Play(h), k)) <==>
            (OUTPUT in AllListed(h)[last].columns || !ListedWithOutput(AllListed(h), k))
  {
    AllListedAreTools(h);
    ColumnsOfHistory(h, k);
    HonestIff(AllListed(h), last, k);
  }

  // ---- What that means for the validator cache

  /** The validator requests made for a tool with these columns. */
  function CallsFor(columns: map<string, Value>): set<Call> {
    if HASH !in columns then {}
    else
      (if INPUT in columns then {Call(columns[INPUT], Key(Input, columns[HASH]))} else {}) +
      (if OUTPUT in columns then {Call(columns[OUTPUT], Key(Output, columns[HASH]))} else {})
  }

  function CallsForAll(rows: set<map<string, Value>>): set<Call> {
    set row, c | row in rows && c in CallsFor(row) :: c
  }

  lemma HonestKeysIdentify(x: map<string, Value>, y: map<string, Value>, a: Call, b: Call)
    requires Honest(x) && Honest(y) && a in CallsFor(x) && b in CallsFor(y) && a.key == b.key
    ensures a.schema == b.schema
  {
    assert x[HASH] == y[HASH];
  }

  lemma HonestRowsCohere(compile: Compiler, rows: set<map<string, Value>>)
    requires forall row :: row in rows ==> Honest(row)
    ensures Coherent(compile, CallsForAll(rows))
  {
    forall a, b | a in CallsForAll(rows) && b in CallsForAll(rows) && a.key == b.key ensures a.schema == b.schema {
      var x :| x in rows && a in CallsFor(x);
      var y :| y in rows && b in CallsFor(y);
      HonestKeysIdentify(x, y, a, b);
    }
  }

  /** Whatever compiling does, the cache is invisible to tools whose hashes identify their schemas. */
  lemma HonestRowsNeverSeeTheCache(compile: Compiler, rows: set<map<string, Value>>)
    requires forall row :: row in rows ==> Honest(row)
    ensures Invisible(compile, CallsForAll(rows))
  {
    HonestRowsCohere(compile, rows);
    InvisibleIff(compile, CallsForAll(rows));
  }

  lemma DescribedNext(ds: seq<Descriptor>, d: Descriptor, k: string)
    ensures Described(ds + [d], k) == if d.key == k then Described(ds, k) + d.columns else Described(ds, k)
  {
    assert (ds + [d])[..|ds|] == ds;
    assert Described(ds, k) + map[] == Described(ds, k);
  }

  /** A tool listed with an output schema and then without keeps the schema, under the hash of having none. */
  lemma DroppedOutput(ds: seq<Descriptor>, k: string, input: Value, output: Value)
    requires Described(ds, k) == Tool(k, input, Some(output)).columns
    ensures Described(ds + [Tool(k, input, None)], k) == StaleTool(input, output)
  {
    DescribedNext(ds, Tool(k, input, None), k);
  }

  function StaleTool(input: Value, output: Value): map<string, Value> {
    map[INPUT := input, HASH := Digest(input, None), OUTPUT := output]
  }

  /** One sync that lists two tools with an output schema each, and one that lists them without. */
  function Dropping(a: string, b: string, input: Value, x: Value, y: Value): seq<Event> {
    [Synced([Tool(a, input, Some(x)), Tool(b, input, Some(y))]), Synced([Tool(a, input, None), Tool(b, input, None)])]
  }

  lemma DroppingLists(a: string, b: string, input: Value, x: Value, y: Value)
    ensures ListsTools(Dropping(a, b, input, x, y))
    ensures AllListed(Dropping(a, b, input, x, y)) ==
            [Tool(a, input, Some(x))] + [Tool(b, input, Some(y))] + [Tool(a, input, None)] + [Tool(b, input, None)]
  {
    var h := Dropping(a, b, input, x, y);
    assert h[..1][..0] == [];
    assert AllListed(h[..1]) == [] + h[0].items;
  }

  lemma OneListing(d: Descriptor, k: string)
    ensures Described([d], k) == if d.key == k then d.columns else map[]
  {
    assert [d] == [] + [d];
    DescribedNext([], d, k);
    assert map[] + d.columns == d.columns;
  }

  lemma FirstDropped(a: string, b: string, input: Value, x: Value, y: Value)
    requires a != b
    ensures Columns(Play(Dropping(a, b, input, x, y)), a) == StaleTool(input, x)
  {
    var ds := [Tool(a, input, Some(x))];
    OneListing(ds[0], a);
    DescribedNext(ds, Tool(b, input, Some(y)), a);
    DroppedOutput(ds + [Tool(b, input, Some(y))], a, input, x);
    DescribedNext(ds + [Tool(b, input, Some(y))] + [Tool(a, input, None)], Tool(b, input, None), a);
    DroppingLists(a, b, input, x, y);
    ColumnsOfHistory(Dropping(a, b, input, x, y), a);
  }

  lemma SecondDropped(a: string, b: string, input: Value, x: Value, y: Value)
    requires a != b
    ensures Columns(Play(Dropping(a, b, input, x, y)), b) == StaleTool(input, y)
  {
    var ds := [Tool(a, input, Some(x))];
    OneListing(ds[0], b);
    DescribedNext(ds, Tool(b, input, Some(y)), b);
    assert map[] + Tool(b, input, Some(y)).columns == Tool(b, input, Some(y)).columns;
    DescribedNext(ds + [Tool(b, input, Some(y))], Tool(a, input, None), b);
    DroppedOutput(ds + [Tool(b, input, Some(y))] + [Tool(a, input, None)], b, input, y);
    DroppingLists(a, b, input, x, y);
    ColumnsOfHistory(Dropping(a, b, input, x, y), b);
  }

  lemma StaleToolsClash(compile: Compiler, input: Value, x: Value, y: Value)
    requires compile(x).Some? && compile(y) != compile(x)
    ensures !Invisible(compile, CallsForAll({StaleTool(input, x), StaleTool(input, y)}))
  {
    var rowX, rowY := StaleTool(input, x), StaleTool(input, y);
    var calls := CallsForAll({rowX, rowY});
    var hash := Digest(input, None);
    assert Call(x, Key(Output, hash)) in CallsFor(rowX) && Call(y, Key(Output, hash)) in CallsFor(rowY);
    assert Call(x, Key(Output, hash)) in calls && Call(y, Key(Output, hash)) in calls;
    InvisibleIff(compile, calls);
  }

  /** Two tools that drop their different output schemas keep them under one hash, and the cache mixes them up. */
  lemma DroppedSchemasCollide(compile: Compiler, a: string, b: string, input: Value, x: Value, y: Value)
    returns (h: seq<Event>)
    requires a != b && compile(x).Some? && compile(y) != compile(x)
    ensures ListsTools(h)
    ensures !Invisible(compile, CallsForAll({Columns(Play(h), a), Columns(Play(h), b)}))
  {
    h := Dropping(a, b, input, x, y);
    DroppingLists(a, b, input, x, y);
    FirstDropped(a, b, input, x, y);
    SecondDropped(a, b, input, x, y);
    StaleToolsClash(compile, input, x, y);
  }

  function Tool(name: string, input: Value, output: Option<Value>): Descriptor {
    var hashed := map[INPUT := input, HASH := Digest(input, output)];
    Descriptor(name, if output.Some? then hashed[OUTPUT := output.value] else hashed)
  }
}
