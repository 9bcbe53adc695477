/** The payload limits of `assertMcpJsonLimits` in `src/ai/mcp/validation.ts`. */
module JsonLimits {
  import opened Text

  /** The text of a number. */
  type AsciiText = s: JsString | forall i :: 0 <= i < |s| ==> s[i] < 0x80

  /** A JSON value; `names` and `values` of an object go together, a number is known by its text. */
  datatype Json =
    | Null
    | Bool(b: bool)
    | Num(text: AsciiText)
    | Str(s: JsString)
    | Arr(items: seq<Json>)
    | Obj(names: seq<JsString>, values: seq<Json>)

  /** What the check is handed: a JSON value, or `undefined`. */
  datatype Payload = Undefined | Given(value: Json)

  datatype Verdict = Accepted(bytes: nat) | TooComplex | StringTooLarge | TooLarge | NotSerializable

  const MAX_DEPTH := 12
  const MAX_NODES := 2_000
  const MAX_STRING_BYTES := 64 * 1024
  const MAX_JSON_BYTES := 512 * 1024

  // ---- Sizes

  predicate High(u: CodeUnit) { 0xD800 <= u < 0xDC00 }
  predicate Low(u: CodeUnit) { 0xDC00 <= u < 0xE000 }

  predicate PairAt(s: JsString, i: nat) {
    i + 1 < |s| && High(s[i]) && Low(s[i + 1])
  }

  /** `Buffer.byteLength(s, "utf8")` from unit `i` on; a lone surrogate becomes the three-byte replacement character. */
  function Utf8Bytes(s: JsString, i: nat): nat
    decreases |s| - i
  {
    if i >= |s| then 0
    else if PairAt(s, i) then 4 + Utf8Bytes(s, i + 2)
    else (if s[i] < 0x80 then 1 else if s[i] < 0x800 then 2 else 3) + Utf8Bytes(s, i + 1)
  }

  /** The bytes of `s` inside the quotes `JSON.stringify` writes, escapes included. */
  function EscapedBytes(s: JsString, i: nat): nat
    decreases |s| - i
  {
    if i >= |s| then 0
    else if PairAt(s, i) then 4 + EscapedBytes(s, i + 2)
    else
      (if s[i] in {34, 92, 8, 9, 10, 12, 13} then 2
       else if s[i] < 0x20 || High(s[i]) || Low(s[i]) then 6
       else if s[i] < 0x80 then 1 else if s[i] < 0x800 then 2 else 3) + EscapedBytes(s, i + 1)
  }

  function Children(v: Json): seq<Json> {
    match v
    case Arr(items) => items
    case Obj(_, values) => values
    case _ => []
  }

  predicate Nested(v: Json) {
    v.Arr? || v.Obj?
  }

  function Commas(n: nat): nat {
    if n == 0 then 0 else n - 1
  }

  function NameBytes(names: seq<JsString>): nat {
    if names == [] then 0 else NameBytes(names[..|names| - 1]) + EscapedBytes(names[|names| - 1], 0) + 3
  }

  /** `Buffer.byteLength(JSON.stringify(v), "utf8")`. */
  function SerializedBytes(v: Json): nat
    decreases v, 1
  {
    match v
    case Null => 4
    case Bool(b) => if b then 4 else 5
    case Num(text) => |text|
    case Str(s) => 2 + EscapedBytes(s, 0)
    case Arr(items) => 2 + Commas(|items|) + AllBytes(items)
    case Obj(names, values) => 2 + Commas(|values|) + NameBytes(names) + AllBytes(values)
  }

  function AllBytes(vs: seq<Json>): nat
    decreases vs, 0
  {
    if vs == [] then 0 else AllBytes(vs[..|vs| - 1]) + SerializedBytes(vs[|vs| - 1])
  }

  // ---- The recursive specification

  function Nodes(v: Json): nat
    decreases v, 1
  {
    1 + if Nested(v) then AllNodes(Children(v)) else 0
  }

  function AllNodes(vs: seq<Json>): nat
    decreases vs, 0
  {
    if vs == [] then 0 else AllNodes(vs[..|vs| - 1]) + Nodes(vs[|vs| - 1])
  }

  /** No value lies deeper than `levels` below `v`. */
  predicate DepthWithin(v: Json, levels: int)
    decreases v
  {
    levels >= 0 && forall c :: c in Children(v) ==> DepthWithin(c, levels - 1)
  }

  predicate ShortString(v: Json) {
    v.Str? ==> Utf8Bytes(v.s, 0) <= MAX_STRING_BYTES
  }

  predicate StringsWithin(v: Json)
    decreases v
  {
    ShortString(v) && forall c :: c in Children(v) ==> StringsWithin(c)
  }

  // ---- The traversal

  datatype Item = Item(value: Json, depth: nat)

  /** The order in which an explicit stack visits a tree: a node, then its children from last to first. */
  function Visits(v: Json, depth: nat): seq<Item>
    decreases v, 1
  {
    [Item(v, depth)] + if Nested(v) then VisitsOfAll(Children(v), depth + 1) else []
  }

  function VisitsOfAll(vs: seq<Json>, depth: nat): seq<Item>
    decreases vs, 0
  {
    if vs == [] then [] else Visits(vs[|vs| - 1], depth) + VisitsOfAll(vs[..|vs| - 1], depth)
  }

  /** What is left to visit when the stack holds these items. */
  function Pending(stack: seq<Item>): seq<Item> {
    if stack == [] then []
    else Visits(stack[|stack| - 1].value, stack[|stack| - 1].depth) + Pending(stack[..|stack| - 1])
  }

  /** The error of the first offending visit after `nodes` earlier ones. */
  function FirstFault(visits: seq<Item>, nodes: nat): seq<Verdict> {
    if visits == [] then []
    else if nodes + 1 > MAX_NODES || visits[0].depth > MAX_DEPTH then [TooComplex]
    else if !ShortString(visits[0].value) then [StringTooLarge]
    else FirstFault(visits[1..], nodes + 1)
  }

  function Pushed(vs: seq<Json>, depth: nat): seq<Item> {
    if vs == [] then [] else Pushed(vs[..|vs| - 1], depth) + [Item(vs[|vs| - 1], depth)]
  }

  lemma {:induction false} PendingPushed(stack: seq<Item>, vs: seq<Json>, depth: nat)
    ensures Pending(stack + Pushed(vs, depth)) == VisitsOfAll(vs, depth) + Pending(stack)
    decreases |vs|
  {
    if vs == [] {
      assert stack + [] == stack;
    } else {
      var init, last := vs[..|vs| - 1], vs[|vs| - 1];
      PendingPushed(stack, init, depth);
      var all := stack + Pushed(vs, depth);
      assert all[..|all| - 1] == stack + Pushed(init, depth);
      assert all[|all| - 1] == Item(last, depth);
      Reassociate(Visits(last, depth), VisitsOfAll(init, depth), Pending(stack));
    }
  }

  /** Pop the top of the stack and push its children: the first pending visit is done. */
  lemma PendingPopped(stack: seq<Item>, top: Item)
    ensures var after := Pending(stack + Pushed(Children(top.value), top.depth + 1));
            Pending(stack + [top]) == [top] + after && ([top] + after)[1..] == after
  {
    var all := stack + [top];
    assert all[..|all| - 1] == stack;
    PendingPushed(stack, Children(top.value), top.depth + 1);
    Reassociate([top], VisitsOfAll(Children(top.value), top.depth + 1), Pending(stack));
  }

  lemma Reassociate(a: seq<Item>, b: seq<Item>, c: seq<Item>)
    ensures (a + b) + c == a + (b + c)
  {
  }

  method PushChildren(stack: seq<Item>, vs: seq<Json>, depth: nat) returns (r: seq<Item>)
    ensures r == stack + Pushed(vs, depth)
  {
    r := stack;
    for i := 0 to |vs|
      invariant r == stack + Pushed(vs[..i], depth)
    {
      assert vs[..i + 1][..i] == vs[..i];
      r := r + [Item(vs[i], depth)];
    }
    assert vs[..|vs|] == vs;
  }

  /** The items of an array and the values of an object go onto the stack. */
  method PushValues(stack: seq<Item>, current: Item) returns (r: seq<Item>)
    ensures r == stack + Pushed(Children(current.value), current.depth + 1)
  {
    match current.value {
      case Arr(items) => r := PushChildren(stack, items, current.depth + 1);
      case Obj(_, values) => r := PushChildren(stack, values, current.depth + 1);
      case _ => r := stack;
    }
  }

  /** The outcome in terms of the tree alone. */
  function Judge(payload: Payload): Verdict {
    if payload.Undefined? then NotSerializable
    else
      var fault := FirstFault(Visits(payload.value, 0), 0);
      if fault != [] then fault[0]
      else if SerializedBytes(payload.value) > MAX_JSON_BYTES then TooLarge
      else Accepted(SerializedBytes(payload.value))
  }

  method AssertJsonLimits(payload: Payload) returns (verdict: Verdict, pops: nat)
    ensures verdict == Judge(payload)
    ensures pops <= 2_001
  {
    if payload.Undefined? {
      return NotSerializable, 1;
    }
    var v := payload.value;
    var nodes: nat := 0;
    var stack := [Item(v, 0)];
    PendingPushed([], [v], 0);
    assert [v][..0] == [] && Pushed([v], 0) == stack && [] + stack == stack;
    assert Pending(stack) == Visits(v, 0);
    while stack != []
      invariant nodes <= MAX_NODES
      invariant FirstFault(Visits(v, 0), 0) == FirstFault(Pending(stack), nodes)
      decreases MAX_NODES - nodes
    {
      var current := stack[|stack| - 1];
      var rest := stack[..|stack| - 1];
      assert stack == rest + [current];
      PendingPopped(rest, current);
      nodes := nodes + 1;
      if nodes > MAX_NODES || current.depth > MAX_DEPTH {
        return TooComplex, nodes;
      }
      if current.value.Str? && Utf8Bytes(current.value.s, 0) > MAX_STRING_BYTES {
        return StringTooLarge, nodes;
      }
      stack := PushValues(rest, current);
    }
    var bytes := SerializedBytes(v);
    verdict := if bytes > MAX_JSON_BYTES then TooLarge else Accepted(bytes);
    pops := nodes;
  }

  // ---- The traversal meets the specification

  lemma {:induction false} VisitCount(v: Json, depth: nat)
    ensures |Visits(v, depth)| == Nodes(v)
    decreases v, 1
  {
    if Nested(v) {
      VisitCountAll(Children(v), depth + 1);
    }
  }

  lemma {:induction false} VisitCountAll(vs: seq<Json>, depth: nat)
    ensures |VisitsOfAll(vs, depth)| == AllNodes(vs)
    decreases vs, 0
  {
    if vs != [] {
      VisitCount(vs[|vs| - 1], depth);
      VisitCountAll(vs[..|vs| - 1], depth);
    }
  }

  predicate Fine(i: Item) {
    i.depth <= MAX_DEPTH && ShortString(i.value)
  }

  predicate AllFine(visits: seq<Item>) {
    forall i :: 0 <= i < |visits| ==> Fine(visits[i])
  }

  predicate Within(v: Json, depth: nat) {
    DepthWithin(v, MAX_DEPTH - depth) && StringsWithin(v)
  }

  lemma {:induction false} VisitsFine(v: Json, depth: nat)
    ensures AllFine(Visits(v, depth)) <==> Within(v, depth)
    decreases v, 1
  {
    WithinUnfold(v, depth);
    assert [Item(v, depth)][0] == Item(v, depth);
    if Nested(v) {
      VisitsFineAll(Children(v), depth + 1);
      AllFineConcat([Item(v, depth)], VisitsOfAll(Children(v), depth + 1));
    } else {
      assert [Item(v, depth)] + [] == [Item(v, depth)];
    }
  }

  lemma WithinUnfold(v: Json, depth: nat)
    ensures Within(v, depth) <==> Fine(Item(v, depth)) && forall c :: c in Children(v) ==> Within(c, depth + 1)
  {
    assert MAX_DEPTH - depth - 1 == MAX_DEPTH - (depth + 1);
    if Within(v, depth) {
      forall c | c in Children(v) ensures Within(c, depth + 1) {
      }
    }
    if Fine(Item(v, depth)) && forall c :: c in Children(v) ==> Within(c, depth + 1) {
      forall c | c in Children(v) ensures DepthWithin(c, MAX_DEPTH - depth - 1) && StringsWithin(c) {
        assert Within(c, depth + 1);
      }
    }
  }

  lemma {:induction false} VisitsFineAll(vs: seq<Json>, depth: nat)
    ensures AllFine(VisitsOfAll(vs, depth)) <==> forall c :: c in vs ==> Within(c, depth)
    decreases vs, 0
  {
    if vs != [] {
      var init, last := vs[..|vs| - 1], vs[|vs| - 1];
      VisitsFine(last, depth);
      VisitsFineAll(init, depth);
      AllFineConcat(Visits(last, depth), VisitsOfAll(init, depth));
      assert vs == init + [last];
    }
  }

  lemma AllFineConcat(a: seq<Item>, b: seq<Item>)
    ensures AllFine(a + b) <==> AllFine(a) && AllFine(b)
  {
    if AllFine(a + b) {
      forall i | 0 <= i < |a| ensures Fine(a[i]) {
        assert (a + b)[i] == a[i];
      }
      forall i | 0 <= i < |b| ensures Fine(b[i]) {
        assert (a + b)[|a| + i] == b[i];
      }
    }
  }

  lemma {:induction false} NoFaultIff(visits: seq<Item>, nodes: nat)
    requires nodes <= MAX_NODES
    ensures FirstFault(visits, nodes) == [] <==> nodes + |visits| <= MAX_NODES && AllFine(visits)
    decreases |visits|
  {
    if visits != [] {
      if nodes < MAX_NODES {
        NoFaultIff(visits[1..], nodes + 1);
      }
      AllFineConcat([visits[0]], visits[1..]);
      assert visits == [visits[0]] + visits[1..];
      assert AllFine([visits[0]]) <==> Fine(visits[0]);
    }
  }

  /** A payload is accepted iff it is a JSON value of at most 2000 nodes, no deeper than 12 levels, with no string value
      over 64 KiB and no more than 512 KiB when serialised; the byte count is that of the serialisation. */
  lemma AcceptedIff(payload: Payload)
    ensures Judge(payload).Accepted? <==>
              payload.Given?
              && Nodes(payload.value) <= 2_000 && DepthWithin(payload.value, 12)
              && StringsWithin(payload.value) && SerializedBytes(payload.value) <= 524_288
    ensures Judge(payload).Accepted? ==> Judge(payload).bytes == SerializedBytes(payload.value)
  {
    if payload.Given? {
      var v := payload.value;
      NoFaultIff(Visits(v, 0), 0);
      VisitCount(v, 0);
      VisitsFine(v, 0);
      FaultIsError(Visits(v, 0), 0);
    }
  }

  lemma {:induction false} FaultIsError(visits: seq<Item>, nodes: nat)
    ensures var f := FirstFault(visits, nodes);
            f == [] || f == [TooComplex] || f == [StringTooLarge]
    decreases |visits|
  {
    if visits != [] && nodes + 1 <= MAX_NODES {
      FaultIsError(visits[1..], nodes + 1);
    }
  }
}
