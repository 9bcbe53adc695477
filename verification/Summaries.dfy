/** The argument summary shown with an approval, `redactedArgumentSummary` in `src/lib/ai-sdk/approval-policy.ts`. */
module Summaries {
  import opened Prelude
  import opened Text

  /** An argument; a null, a truth value or a number is known by its text, and whatever else is neither a string nor an
      object (undefined, a function, a symbol, a big integer) by what `String` makes of it. */
  datatype Argument =
    | Scalar(text: JsString)
    | Str(s: JsString)
    | List(items: seq<Argument>)
    | Record(fields: seq<Field>)
    | Exotic(shown: JsString)

  datatype Field = Field(name: JsString, value: Argument)

  /** Which names the sensitive-name pattern matches. */
  type Pattern = JsString -> bool

  const MAX_DEPTH := 3
  const MAX_ITEMS := 8
  const MAX_FIELDS := 20
  const MAX_TEXT := 160
  const NESTED: Argument := Str([91, 110, 101, 115, 116, 101, 100, 93])
  const REDACTED: Argument := Str([91, 114, 101, 100, 97, 99, 116, 101, 100, 93])
  const ELLIPSIS: JsString := [46, 46, 46]

  function Shorten(s: JsString): JsString {
    if |s| > MAX_TEXT then s[..157] + ELLIPSIS else s
  }

  function Summary(hides: Pattern, v: Argument, depth: nat): Argument
    decreases v
  {
    if depth > MAX_DEPTH then NESTED
    else
      match v
      case Scalar(_) => v
      case Str(s) => Str(Shorten(s))
      case List(items) =>
        List(seq(Min(MAX_ITEMS, |items|), i requires 0 <= i < Min(MAX_ITEMS, |items|) =>
          Summary(hides, items[i], depth + 1)))
      case Exotic(shown) => Str(shown)
      case Record(fields) =>
        Record(seq(Min(MAX_FIELDS, |fields|), i requires 0 <= i < Min(MAX_FIELDS, |fields|) =>
          Field(fields[i].name,
                if hides(fields[i].name) then REDACTED else Summary(hides, fields[i].value, depth + 1))))
  }

  // ---- What is shown where

  function Inside(v: Argument): seq<Argument> {
    match v
    case List(items) => items
    case Record(fields) => seq(|fields|, i requires 0 <= i < |fields| => fields[i].value)
    case _ => []
  }

  /** The value a path of positions leads to. */
  function Reach(v: Argument, path: seq<nat>): Option<Argument>
    decreases |path|
  {
    if path == [] then Some(v)
    else if path[0] >= |Inside(v)| then None
    else Reach(Inside(v)[path[0]], path[1..])
  }

  /** The summary follows the path: through the first eight items of lists and those of the first twenty fields of
      records whose names are not sensitive. */
  predicate Followed(hides: Pattern, v: Argument, path: seq<nat>)
    decreases |path|
  {
    path == [] ||
    (path[0] < |Inside(v)| && Followed(hides, Inside(v)[path[0]], path[1..])
     && match v
        case List(_) => path[0] < 8
        case Record(fields) => path[0] < 20 && !hides(fields[path[0]].name)
        case _ => false)
  }

  /** What the summary makes of a value that is no deeper than three levels down. */
  predicate ShownAs(hides: Pattern, v: Argument, r: Argument) {
    match v
    case Scalar(_) => r == v
    case Exotic(shown) => r == Str(shown)
    case Str(s) =>
      r.Str? && if |s| <= 160 then r.s == s else |r.s| == 160 && r.s[..157] == s[..157] && r.s[157..] == [46, 46, 46]
    case List(items) => r.List? && |r.items| == if |items| <= 8 then |items| else 8
    case Record(fields) =>
      && r.Record? && |r.fields| == (if |fields| <= 20 then |fields| else 20)
      && forall i :: 0 <= i < |r.fields| ==>
           && r.fields[i].name == fields[i].name
           && (hides(fields[i].name) ==> r.fields[i].value == Str([91, 114, 101, 100, 97, 99, 116, 101, 100, 93]))
  }

  lemma SummaryTop(hides: Pattern, v: Argument, depth: nat)
    requires depth <= 3
    ensures ShownAs(hides, v, Summary(hides, v, depth))
  {
  }

  lemma SummaryInside(hides: Pattern, v: Argument, depth: nat, path: seq<nat>)
    requires depth <= 3 && path != [] && Followed(hides, v, path)
    ensures path[0] < |Inside(v)| && path[0] < |Inside(Summary(hides, v, depth))|
    ensures Inside(Summary(hides, v, depth))[path[0]] == Summary(hides, Inside(v)[path[0]], depth + 1)
  {
  }

  /** Along every path it follows, at most three levels down the summary shows what it should; on the fourth it shows
      "[nested]" instead. */
  lemma {:induction false} SummaryAlong(hides: Pattern, v: Argument, depth: nat, path: seq<nat>)
    requires depth + |path| <= 4 && Followed(hides, v, path)
    ensures Reach(v, path).Some? && Reach(Summary(hides, v, depth), path).Some?
    ensures var shown := Reach(Summary(hides, v, depth), path).value;
            if depth + |path| <= 3 then ShownAs(hides, Reach(v, path).value, shown)
            else shown == Str([91, 110, 101, 115, 116, 101, 100, 93])
    decreases |path|
  {
    if path != [] {
      SummaryInside(hides, v, depth, path);
      SummaryAlong(hides, Inside(v)[path[0]], depth + 1, path[1..]);
    } else if depth <= 3 {
      SummaryTop(hides, v, depth);
    }
  }

  // ---- Noninterference

  /** The two arguments differ at most in values that stand under sensitive names. */
  predicate PublicPartsEqual(hides: Pattern, v: Argument, w: Argument)
    decreases v
  {
    match (v, w)
    case (List(a), List(b)) => |a| == |b| && forall i :: 0 <= i < |a| ==> PublicPartsEqual(hides, a[i], b[i])
    case (Record(a), Record(b)) =>
      |a| == |b| && forall i :: 0 <= i < |a| ==>
        a[i].name == b[i].name && (hides(a[i].name) || PublicPartsEqual(hides, a[i].value, b[i].value))
    case _ => v == w
  }

  /** What stands under sensitive names has no influence on the summary. */
  lemma {:induction false} SecretsHaveNoInfluence(hides: Pattern, v: Argument, w: Argument, depth: nat)
    requires PublicPartsEqual(hides, v, w)
    ensures Summary(hides, v, depth) == Summary(hides, w, depth)
    decreases v
  {
    if depth <= MAX_DEPTH {
      match (v, w)
      case (List(a), List(b)) =>
        forall i | 0 <= i < |a| ensures Summary(hides, a[i], depth + 1) == Summary(hides, b[i], depth + 1) {
          SecretsHaveNoInfluence(hides, a[i], b[i], depth + 1);
        }
        assert Summary(hides, v, depth).items == Summary(hides, w, depth).items;
      case (Record(a), Record(b)) =>
        forall i | 0 <= i < |a| && !hides(a[i].name)
          ensures Summary(hides, a[i].value, depth + 1) == Summary(hides, b[i].value, depth + 1)
        {
          SecretsHaveNoInfluence(hides, a[i].value, b[i].value, depth + 1);
        }
        assert Summary(hides, v, depth).fields == Summary(hides, w, depth).fields;
      case _ =>
    }
  }

  /** Every value under a sensitive name has been replaced. */
  predicate AllRedacted(hides: Pattern, v: Argument)
    decreases v
  {
    match v
    case List(items) => forall i :: 0 <= i < |items| ==> AllRedacted(hides, items[i])
    case Record(fields) =>
      forall i :: 0 <= i < |fields| ==>
        (hides(fields[i].name) ==> fields[i].value == REDACTED) && AllRedacted(hides, fields[i].value)
    case _ => true
  }

  lemma {:induction false} SummaryRedacts(hides: Pattern, v: Argument, depth: nat)
    ensures AllRedacted(hides, Summary(hides, v, depth))
    decreases v
  {
    if depth <= MAX_DEPTH {
      match v
      case List(items) =>
        forall i | 0 <= i < |items| ensures AllRedacted(hides, Summary(hides, items[i], depth + 1)) {
          SummaryRedacts(hides, items[i], depth + 1);
        }
      case Record(fields) =>
        forall i | 0 <= i < |fields| ensures AllRedacted(hides, Summary(hides, fields[i].value, depth + 1)) {
          SummaryRedacts(hides, fields[i].value, depth + 1);
        }
      case _ =>
    }
  }

  // ---- Idempotence

  /** The summary shows, at full length, an exotic leaf of more than 160 units. */
  predicate ShowsLongExotic(hides: Pattern, v: Argument, depth: nat)
    decreases v
  {
    depth <= MAX_DEPTH &&
    match v
    case Exotic(shown) => |shown| > MAX_TEXT
    case List(items) => exists i :: 0 <= i < Min(MAX_ITEMS, |items|) && ShowsLongExotic(hides, items[i], depth + 1)
    case Record(fields) =>
      exists i :: 0 <= i < Min(MAX_FIELDS, |fields|) && !hides(fields[i].name) &&
          ShowsLongExotic(hides, fields[i].value, depth + 1)
    case _ => false
  }

  lemma SummaryOfList(hides: Pattern, items: seq<Argument>, depth: nat)
    requires depth <= MAX_DEPTH
    ensures var s := Summary(hides, List(items), depth);
            s.List? && |s.items| == Min(MAX_ITEMS, |items|)
            && forall i :: 0 <= i < |s.items| ==> s.items[i] == Summary(hides, items[i], depth + 1)
  {
  }

  lemma SummaryOfRecord(hides: Pattern, fields: seq<Field>, depth: nat)
    requires depth <= MAX_DEPTH
    ensures var s := Summary(hides, Record(fields), depth);
            s.Record? && |s.fields| == Min(MAX_FIELDS, |fields|)
            && forall i :: 0 <= i < |s.fields| ==>
                 s.fields[i] == Field(fields[i].name,
                                      if hides(fields[i].name) then REDACTED
                                      else Summary(hides, fields[i].value, depth + 1))
  {
  }

  /** Summarizing a summary changes nothing iff it shows no exotic leaf that is too long for a string. */
  lemma {:induction false} SummaryTwiceIff(hides: Pattern, v: Argument, depth: nat)
    ensures Summary(hides, Summary(hides, v, depth), depth) == Summary(hides, v, depth) <==>
            !ShowsLongExotic(hides, v, depth)
    decreases v
  {
    if depth <= MAX_DEPTH {
      match v
      case List(items) => ListTwiceIff(hides, items, depth);
      case Record(fields) => RecordTwiceIff(hides, fields, depth);
      case _ =>
    }
  }

  lemma {:induction false} ListTwiceIff(hides: Pattern, items: seq<Argument>, depth: nat)
    requires depth <= MAX_DEPTH
    ensures var once := Summary(hides, List(items), depth);
            Summary(hides, once, depth) == once <==> !ShowsLongExotic(hides, List(items), depth)
    decreases List(items), 0
  {
    var once := Summary(hides, List(items), depth);
    SummaryOfList(hides, items, depth);
    SummaryOfList(hides, once.items, depth);
    var twice := Summary(hides, once, depth);
    forall i | 0 <= i < |once.items|
      ensures twice.items[i] == once.items[i] <==> !ShowsLongExotic(hides, items[i], depth + 1)
    {
      SummaryTwiceIff(hides, items[i], depth + 1);
    }
    assert twice == once <==> forall i :: 0 <= i < |once.items| ==> twice.items[i] == once.items[i];
  }

  lemma {:induction false} RecordTwiceIff(hides: Pattern, fields: seq<Field>, depth: nat)
    requires depth <= MAX_DEPTH
    ensures var once := Summary(hides, Record(fields), depth);
            Summary(hides, once, depth) == once <==> !ShowsLongExotic(hides, Record(fields), depth)
    decreases Record(fields), 0
  {
    var once := Summary(hides, Record(fields), depth);
    SummaryOfRecord(hides, fields, depth);
    SummaryOfRecord(hides, once.fields, depth);
    var twice := Summary(hides, once, depth);
    forall i | 0 <= i < |once.fields|
      ensures twice.fields[i] == once.fields[i] <==>
              hides(fields[i].name) || !ShowsLongExotic(hides, fields[i].value, depth + 1)
    {
      SummaryTwiceIff(hides, fields[i].value, depth + 1);
    }
    assert twice == once <==> forall i :: 0 <= i < |once.fields| ==> twice.fields[i] == once.fields[i];
  }

  // ---- Size

  function Nodes(v: Argument): nat
    decreases v, 1
  {
    match v
    case List(items) => 1 + ItemNodes(items)
    case Record(fields) => 1 + FieldNodes(fields)
    case _ => 1
  }

  function ItemNodes(items: seq<Argument>): nat
    decreases items, 0
  {
    if items == [] then 0 else ItemNodes(items[..|items| - 1]) + Nodes(items[|items| - 1])
  }

  function FieldNodes(fields: seq<Field>): nat
    decreases fields, 0
  {
    if fields == [] then 0 else FieldNodes(fields[..|fields| - 1]) + Nodes(fields[|fields| - 1].value)
  }

  /** The most nodes a summary has from this depth on. */
  function MostNodes(depth: nat): nat
    decreases MAX_DEPTH + 1 - depth
  {
    if depth > MAX_DEPTH then 1 else 1 + MAX_FIELDS * MostNodes(depth + 1)
  }

  lemma {:induction false} ItemsBound(items: seq<Argument>, most: nat)
    requires forall i :: 0 <= i < |items| ==> Nodes(items[i]) <= most
    ensures ItemNodes(items) <= |items| * most
  {
    if items != [] {
      ItemsBound(items[..|items| - 1], most);
      assert |items| * most == (|items| - 1) * most + most;
    }
  }

  lemma {:induction false} FieldsBound(fields: seq<Field>, most: nat)
    requires forall i :: 0 <= i < |fields| ==> Nodes(fields[i].value) <= most
    ensures FieldNodes(fields) <= |fields| * most
  {
    if fields != [] {
      FieldsBound(fields[..|fields| - 1], most);
      assert |fields| * most == (|fields| - 1) * most + most;
    }
  }

  lemma TimesGrows(a: nat, b: nat, m: nat)
    requires a <= b
    ensures a * m <= b * m
  {
  }

  lemma MostNodesStep(depth: nat)
    requires depth <= MAX_DEPTH
    ensures MostNodes(depth) == 1 + MAX_FIELDS * MostNodes(depth + 1)
  {
  }

  lemma {:induction false} SummaryNodes(hides: Pattern, v: Argument, depth: nat)
    ensures Nodes(Summary(hides, v, depth)) <= MostNodes(depth)
    decreases v, 1
  {
    if depth <= MAX_DEPTH {
      match v
      case List(items) => ListNodes(hides, items, depth);
      case Record(fields) => RecordNodes(hides, fields, depth);
      case _ =>
    }
  }

  lemma {:induction false} ListNodes(hides: Pattern, items: seq<Argument>, depth: nat)
    requires depth <= MAX_DEPTH
    ensures Nodes(Summary(hides, List(items), depth)) <= MostNodes(depth)
    decreases List(items), 0
  {
    var most := MostNodes(depth + 1);
    SummaryOfList(hides, items, depth);
    var shown := Summary(hides, List(items), depth).items;
    forall i | 0 <= i < |shown| ensures Nodes(shown[i]) <= most {
      SummaryNodes(hides, items[i], depth + 1);
    }
    ItemsBound(shown, most);
    TimesGrows(|shown|, MAX_FIELDS, most);
    MostNodesStep(depth);
  }

  lemma {:induction false} RecordNodes(hides: Pattern, fields: seq<Field>, depth: nat)
    requires depth <= MAX_DEPTH
    ensures Nodes(Summary(hides, Record(fields), depth)) <= MostNodes(depth)
    decreases Record(fields), 0
  {
    var most := MostNodes(depth + 1);
    SummaryOfRecord(hides, fields, depth);
    var shown := Summary(hides, Record(fields), depth).fields;
    forall i | 0 <= i < |shown| ensures Nodes(shown[i].value) <= most {
      SummaryNodes(hides, fields[i].value, depth + 1);
    }
    FieldsBound(shown, most);
    TimesGrows(|shown|, MAX_FIELDS, most);
    MostNodesStep(depth);
  }

  lemma MostNodesAtRoot()
    ensures MostNodes(0) == 168_421
  {
    assert MostNodes(4) == 1 && MostNodes(3) == 21 && MostNodes(2) == 421 && MostNodes(1) == 8_421;
  }

  /** A summary has at most 168421 nodes. */
  lemma SummaryIsBounded(hides: Pattern, v: Argument)
    ensures Nodes(Summary(hides, v, 0)) <= 168_421
  {
    SummaryNodes(hides, v, 0);
    MostNodesAtRoot();
  }

  /** The argument with twenty fields at every level. */
  function Bushy(depth: nat): Argument
    decreases MAX_DEPTH + 1 - depth
  {
    if depth > MAX_DEPTH then NESTED
    else Record(seq(MAX_FIELDS, i requires 0 <= i < MAX_FIELDS => Field([i], Bushy(depth + 1))))
  }

  lemma {:induction false} FieldsOfEqualSize(fields: seq<Field>, each: nat)
    requires forall i :: 0 <= i < |fields| ==> Nodes(fields[i].value) == each
    ensures FieldNodes(fields) == |fields| * each
  {
    if fields != [] {
      FieldsOfEqualSize(fields[..|fields| - 1], each);
      assert |fields| * each == (|fields| - 1) * each + each;
    }
  }

  lemma {:induction false} BushySummary(hides: Pattern, depth: nat)
    requires (forall i: CodeUnit :: i < MAX_FIELDS ==> !hides([i])) && depth <= MAX_DEPTH + 1
    ensures Nodes(Summary(hides, Bushy(depth), depth)) == MostNodes(depth)
    decreases MAX_DEPTH + 1 - depth
  {
    if depth <= MAX_DEPTH {
      var fields := Bushy(depth).fields;
      BushySummary(hides, depth + 1);
      SummaryOfRecord(hides, fields, depth);
      FieldsOfEqualSize(Summary(hides, Record(fields), depth).fields, MostNodes(depth + 1));
      MostNodesStep(depth);
    }
  }

  /** The bound is reached, under every pattern that lets twenty names of one control character each pass. */
  lemma BoundIsReached(hides: Pattern)
    requires forall i: CodeUnit :: i < MAX_FIELDS ==> !hides([i])
    ensures Nodes(Summary(hides, Bushy(0), 0)) == 168_421
  {
    BushySummary(hides, 0);
    MostNodesAtRoot();
  }

  /** No string value is longer than 160 units. */
  predicate StringsShort(v: Argument)
    decreases v
  {
    match v
    case Str(s) => |s| <= MAX_TEXT
    case List(items) => forall i :: 0 <= i < |items| ==> StringsShort(items[i])
    case Record(fields) => forall i :: 0 <= i < |fields| ==> StringsShort(fields[i].value)
    case _ => true
  }

  /** The string values of a summary are at most 160 units long under the same condition as it is idempotent. */
  lemma {:induction false} SummaryStringsShortIff(hides: Pattern, v: Argument, depth: nat)
    ensures StringsShort(Summary(hides, v, depth)) <==> !ShowsLongExotic(hides, v, depth)
    decreases v
  {
    if depth <= MAX_DEPTH {
      match v
      case List(items) =>
        SummaryOfList(hides, items, depth);
        var shown := Summary(hides, v, depth).items;
        forall i | 0 <= i < |shown| ensures StringsShort(shown[i]) <==> !ShowsLongExotic(hides, items[i], depth + 1) {
          SummaryStringsShortIff(hides, items[i], depth + 1);
        }
      case Record(fields) =>
        SummaryOfRecord(hides, fields, depth);
        var shown := Summary(hides, v, depth).fields;
        forall i | 0 <= i < |shown|
          ensures StringsShort(shown[i].value) <==>
                  hides(fields[i].name) || !ShowsLongExotic(hides, fields[i].value, depth + 1)
        {
          SummaryStringsShortIff(hides, fields[i].value, depth + 1);
        }
      case _ =>
    }
  }

  /** The argument is JSON: nothing in it is exotic. */
  predicate IsJson(v: Argument)
    decreases v
  {
    match v
    case Exotic(_) => false
    case List(items) => forall i :: 0 <= i < |items| ==> IsJson(items[i])
    case Record(fields) => forall i :: 0 <= i < |fields| ==> IsJson(fields[i].value)
    case _ => true
  }

  lemma {:induction false} JsonShowsNoExotic(hides: Pattern, v: Argument, depth: nat)
    requires IsJson(v)
    ensures !ShowsLongExotic(hides, v, depth)
    decreases v
  {
    match v
    case List(items) =>
      forall i | 0 <= i < |items| ensures !ShowsLongExotic(hides, items[i], depth + 1) {
        JsonShowsNoExotic(hides, items[i], depth + 1);
      }
    case Record(fields) =>
      forall i | 0 <= i < |fields| ensures !ShowsLongExotic(hides, fields[i].value, depth + 1) {
        JsonShowsNoExotic(hides, fields[i].value, depth + 1);
      }
    case _ =>
  }

  /** The summary of a JSON argument is its own summary, and its string values are at most 160 units long. */
  lemma JsonSummary(hides: Pattern, v: Argument)
    requires IsJson(v)
    ensures Summary(hides, Summary(hides, v, 0), 0) == Summary(hides, v, 0) && StringsShort(Summary(hides, v, 0))
  {
    JsonShowsNoExotic(hides, v, 0);
    SummaryTwiceIff(hides, v, 0);
    SummaryStringsShortIff(hides, v, 0);
  }
}
