/** The bounded cache of compiled schemas, `validator` in `src/ai/mcp/validation.ts`. */
module ValidatorCache {
  import opened Prelude
  import opened Discovery

  datatype Direction = Input | Output

  datatype Key = Key(direction: Direction, hash: Value)

  /** A request for the validator of `schema`, filed under a direction and the hash stored with the tool. */
  datatype Call = Call(schema: Value, key: Key)

  /** A compiled validator, known by its identity; compilation may fail. */
  type Compiler = Value -> Option<nat>

  datatype Filed = Filed(key: Key, validator: nat)

  const CAPACITY := 500

  function Find(entries: seq<Filed>, key: Key): (found: Option<nat>)
    ensures found.Some? ==> Filed(key, found.value) in entries
    ensures found.None? <==> forall e :: e in entries ==> e.key != key
  {
    if entries == [] then None
    else if entries[|entries| - 1].key == key then Some(entries[|entries| - 1].validator)
    else Find(entries[..|entries| - 1], key)
  }

  function Answer(compile: Compiler, entries: seq<Filed>, call: Call): Option<nat> {
    if Find(entries, call.key).Some? then Find(entries, call.key) else compile(call.schema)
  }

  /** What a call files: a freshly compiled validator, or nothing on a hit or a failed compilation. */
  function Files(compile: Compiler, entries: seq<Filed>, call: Call): seq<Filed> {
    if Find(entries, call.key).None? && compile(call.schema).Some?
    then [Filed(call.key, compile(call.schema).value)] else []
  }

  /** The newest entries, as many as fit. */
  function Newest(filed: seq<Filed>): (kept: seq<Filed>)
    ensures kept == if |filed| <= 500 then filed else filed[|filed| - 500..]
  {
    if |filed| > CAPACITY then filed[|filed| - CAPACITY..] else filed
  }

  /** Everything filed by these calls, oldest first, when the cache starts empty. */
  function Filings(compile: Compiler, calls: seq<Call>): seq<Filed> {
    if calls == [] then []
    else
      var before := Filings(compile, calls[..|calls| - 1]);
      before + Files(compile, Newest(before), calls[|calls| - 1])
  }

  /** Evicting the oldest entry of a full cache before filing keeps it the newest of everything filed. */
  lemma NewestPush(filed: seq<Filed>, e: Filed)
    ensures var kept := Newest(filed);
            Newest(filed + [e]) == Insert(kept, e)
  {
    if |filed| > CAPACITY {
      assert (filed + [e])[|filed| + 1 - CAPACITY..] == filed[|filed| - CAPACITY..][1..] + [e];
    }
  }

  /** Filing evicts the oldest entry of a full cache. */
  function Insert(entries: seq<Filed>, e: Filed): seq<Filed> {
    (if |entries| >= CAPACITY then entries[1..] else entries) + [e]
  }

  ghost function Held(compile: Compiler, calls: seq<Call>): (entries: seq<Filed>)
    ensures |entries| <= CAPACITY
  {
    Newest(Filings(compile, calls))
  }

  lemma HeldNext(compile: Compiler, calls: seq<Call>, call: Call)
    ensures var before, files := Held(compile, calls), Files(compile, Held(compile, calls), call);
            Held(compile, calls + [call]) == if files == [] then before else Insert(before, files[0])
  {
    assert (calls + [call])[..|calls|] == calls;
    var filed := Filings(compile, calls);
    var files := Files(compile, Newest(filed), call);
    if files == [] {
      assert filed + [] == filed;
    } else {
      NewestPush(filed, files[0]);
    }
  }

  class Cache {
    const compile: Compiler
    var entries: seq<Filed>
    ghost var calls: seq<Call>

    constructor (compile: Compiler)
      ensures this.compile == compile && Valid() && calls == []
    {
      this.compile := compile;
      entries, calls := [], [];
    }

    /** The cache holds the newest of everything filed so far, hence never more than 500 entries. */
    ghost predicate Valid()
      reads this
    {
      entries == Held(compile, calls)
    }

    method Validator(schema: Value, hash: Value, direction: Direction) returns (r: Option<nat>)
      requires Valid()
      modifies this
      ensures Valid() && |entries| <= 500
      ensures calls == old(calls) + [Call(schema, Key(direction, hash))]
      ensures r == Answer(compile, old(entries), Call(schema, Key(direction, hash)))
      ensures r.None? ==> entries == old(entries)
    {
      var key := Key(direction, hash);
      HeldNext(compile, calls, Call(schema, key));
      calls := calls + [Call(schema, key)];
      r := Find(entries, key);
      if r.Some? {
        return;
      }
      r := compile(schema);
      if r.None? {
        return;
      }
      if |entries| >= CAPACITY {
        entries := entries[1..];
      }
      entries := entries + [Filed(key, r.value)];
    }
  }

  // ---- When the cache is invisible

  /** The last of these calls gets what compiling its own schema gives. */
  predicate LastIsRight(compile: Compiler, calls: seq<Call>)
    requires calls != []
  {
    var last := calls[|calls| - 1];
    Answer(compile, Newest(Filings(compile, calls[..|calls| - 1])), last) == compile(last.schema)
  }

  ghost predicate Only(calls: seq<Call>, some: set<Call>) {
    forall c :: c in calls ==> c in some
  }

  /** No sequence of these calls, in whatever order and number, can tell the cache from compiling anew. */
  ghost predicate Invisible(compile: Compiler, some: set<Call>) {
    forall calls :: calls != [] && Only(calls, some) ==> LastIsRight(compile, calls)
  }

  /** Calls filed under one key compile alike. */
  predicate Coherent(compile: Compiler, some: set<Call>) {
    forall a, b :: a in some && b in some && a.key == b.key && compile(a.schema).Some? ==>
      compile(b.schema) == compile(a.schema)
  }

  /** Every filed validator is the compilation of a schema asked for under its key. */
  lemma {:induction false} FilingsComeFromCalls(compile: Compiler, calls: seq<Call>, e: Filed) returns (c: Call)
    requires e in Filings(compile, calls)
    ensures c in calls && c.key == e.key && compile(c.schema) == Some(e.validator)
  {
    var init, last := calls[..|calls| - 1], calls[|calls| - 1];
    if e in Filings(compile, init) {
      c := FilingsComeFromCalls(compile, init, e);
    } else {
      c := last;
    }
  }

  lemma CoherentIsInvisible(compile: Compiler, some: set<Call>, calls: seq<Call>)
    requires Coherent(compile, some) && calls != [] && Only(calls, some)
    ensures LastIsRight(compile, calls)
  {
    var init, last := calls[..|calls| - 1], calls[|calls| - 1];
    var filed := Filings(compile, init);
    var found := Find(Newest(filed), last.key);
    if found.Some? {
      var e := Filed(last.key, found.value);
      assert e in filed;
      var c := FilingsComeFromCalls(compile, init, e);
      assert c in calls && last in calls;
    }
  }

  lemma ClashIsVisible(compile: Compiler, a: Call, b: Call)
    requires a.key == b.key && compile(a.schema).Some? && compile(b.schema) != compile(a.schema)
    ensures !LastIsRight(compile, [a, b])
  {
    assert [a, b][..1] == [a] && [a][..0] == [];
    var e := Filed(a.key, compile(a.schema).value);
    assert Filings(compile, [a]) == [] + [e];
    assert [] + [e] == [e] && Newest([e]) == [e];
    assert Find([e], b.key) == compile(a.schema);
  }

  /** The cache is invisible to a set of calls iff calls of the set that share a key compile alike. */
  lemma InvisibleIff(compile: Compiler, some: set<Call>)
    ensures Invisible(compile, some) <==> Coherent(compile, some)
  {
    if Coherent(compile, some) {
      forall calls | calls != [] && Only(calls, some) ensures LastIsRight(compile, calls) {
        CoherentIsInvisible(compile, some, calls);
      }
    }
    if Invisible(compile, some) {
      forall a, b | a in some && b in some && a.key == b.key && compile(a.schema).Some?
        ensures compile(b.schema) == compile(a.schema)
      {
        if compile(b.schema) != compile(a.schema) {
          assert Only([a, b], some);
          ClashIsVisible(compile, a, b);
        }
      }
    }
  }
}
