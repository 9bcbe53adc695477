/** What the byte counts of the payload limits count: the UTF-8 encoding of a string, and that of the serialised
    payload. */
module JsonText {
  import opened Text
  import opened JsonLimits

  // ---- The length of a string in UTF-8

  /** A unit by itself takes one, two or three bytes; a lone surrogate is replaced by a character of three. */
  lemma BytesOfUnit(u: CodeUnit)
    ensures Utf8Bytes([u], 0) == if u <= 0x7F then 1 else if u <= 0x7FF then 2 else 3
  {
  }

  lemma BytesOfPair(h: CodeUnit, l: CodeUnit)
    requires 0xD800 <= h <= 0xDBFF && 0xDC00 <= l <= 0xDFFF
    ensures Utf8Bytes([h, l], 0) == 4
  {
  }

  /** Cutting between the two texts parts a surrogate pair. */
  predicate PartsPair(a: JsString, b: JsString) {
    a != [] && b != [] && 0xD800 <= a[|a| - 1] <= 0xDBFF && 0xDC00 <= b[0] <= 0xDFFF
  }

  lemma {:induction false} BytesBehind(a: JsString, b: JsString, i: nat)
    requires i <= |b|
    ensures Utf8Bytes(a + b, |a| + i) == Utf8Bytes(b, i)
    decreases |b| - i
  {
    if i < |b| {
      BytesBehind(a, b, i + 1);
      if PairAt(b, i) {
        BytesBehind(a, b, i + 2);
      }
    }
  }

  lemma {:induction false} BytesAdd(a: JsString, b: JsString, i: nat)
    requires i <= |a| && !PartsPair(a, b)
    ensures Utf8Bytes(a + b, i) == Utf8Bytes(a, i) + Utf8Bytes(b, 0)
    decreases |a| - i
  {
    if i == |a| {
      BytesBehind(a, b, 0);
    } else {
      BytesAdd(a, b, i + 1);
      if PairAt(a, i) {
        BytesAdd(a, b, i + 2);
      }
    }
  }

  /** Lengths add up, wherever a text is cut without parting a surrogate pair. */
  lemma BytesOfConcatenation(a: JsString, b: JsString)
    requires !PartsPair(a, b)
    ensures Utf8Bytes(a + b, 0) == Utf8Bytes(a, 0) + Utf8Bytes(b, 0)
  {
    BytesAdd(a, b, 0);
  }

  // ---- The serialised payload

  predicate Surrogate(u: CodeUnit) {
    0xD800 <= u <= 0xDFFF
  }

  function HexDigit(n: nat): CodeUnit
    requires n < 16
  {
    if n < 10 then 48 + n else 87 + n
  }

  /** What stands for a unit that is not half of a pair: itself, or its escape sequence. */
  function EscapedUnit(u: CodeUnit): JsString {
    match u
    case 34 => [92, 34]
    case 92 => [92, 92]
    case 8 => [92, 98]
    case 9 => [92, 116]
    case 10 => [92, 110]
    case 12 => [92, 102]
    case 13 => [92, 114]
    case _ =>
      if u < 0x20 || Surrogate(u)
      then [92, 117, HexDigit(u / 4096), HexDigit(u / 256 % 16), HexDigit(u / 16 % 16), HexDigit(u % 16)]
      else [u]
  }

  function Escape(s: JsString, i: nat): JsString
    decreases |s| - i
  {
    if i >= |s| then []
    else if PairAt(s, i) then [s[i], s[i + 1]] + Escape(s, i + 2)
    else EscapedUnit(s[i]) + Escape(s, i + 1)
  }

  function Quote(s: JsString): JsString {
    [34] + Escape(s, 0) + [34]
  }

  function Comma(n: nat): JsString {
    if n > 1 then [44] else []
  }

  /** `JSON.stringify(v)`. */
  function Stringify(v: Json): JsString
    decreases v, 1
  {
    match v
    case Null => [110, 117, 108, 108]
    case Bool(b) => if b then [116, 114, 117, 101] else [102, 97, 108, 115, 101]
    case Num(text) => text
    case Str(s) => Quote(s)
    case Arr(items) => [91] + Elements(items) + [93]
    case Obj(names, values) => [123] + Members(names, values) + [125]
  }

  function Elements(vs: seq<Json>): JsString
    decreases vs, 0
  {
    if vs == [] then []
    else Elements(vs[..|vs| - 1]) + Comma(|vs|) + Stringify(vs[|vs| - 1])
  }

  function Members(names: seq<JsString>, values: seq<Json>): JsString
    decreases values, 0
  {
    if names == [] || values == [] then []
    else
      Members(names[..|names| - 1], values[..|values| - 1]) + Comma(|values|)
      + (Quote(names[|names| - 1]) + [58] + Stringify(values[|values| - 1]))
  }

  /** Every object has as many names as values. */
  predicate WellFormed(v: Json)
    decreases v
  {
    match v
    case Arr(items) => forall i :: 0 <= i < |items| ==> WellFormed(items[i])
    case Obj(names, values) => |names| == |values| && forall i :: 0 <= i < |values| ==> WellFormed(values[i])
    case _ => true
  }

  // ---- Its length

  predicate Plain(s: JsString) {
    forall i :: 0 <= i < |s| ==> s[i] < 0x80
  }

  lemma {:induction false} BytesOfPlain(s: JsString, i: nat)
    requires Plain(s) && i <= |s|
    ensures Utf8Bytes(s, i) == |s| - i
    decreases |s| - i
  {
    if i < |s| {
      BytesOfPlain(s, i + 1);
    }
  }

  lemma BytesOfEscapedUnit(u: CodeUnit)
    ensures EscapedUnit(u) != [] && !Low(EscapedUnit(u)[0]) && !High(EscapedUnit(u)[|EscapedUnit(u)| - 1])
    ensures Utf8Bytes(EscapedUnit(u), 0) == EscapedBytes([u], 0)
  {
    if Plain(EscapedUnit(u)) {
      BytesOfPlain(EscapedUnit(u), 0);
    }
  }

  lemma {:induction false} EscapeStarts(s: JsString, i: nat)
    requires i < |s|
    ensures Escape(s, i) != [] && !Low(Escape(s, i)[0])
  {
    BytesOfEscapedUnit(s[i]);
  }

  lemma {:induction false} BytesOfEscape(s: JsString, i: nat)
    requires i <= |s|
    ensures Utf8Bytes(Escape(s, i), 0) == EscapedBytes(s, i)
    decreases |s| - i
  {
    if i < |s| {
      if PairAt(s, i) {
        BytesOfEscape(s, i + 2);
        BytesOfPair(s[i], s[i + 1]);
        BytesOfConcatenation([s[i], s[i + 1]], Escape(s, i + 2));
      } else {
        BytesOfEscape(s, i + 1);
        BytesOfEscapedUnit(s[i]);
        assert EscapedBytes([s[i]], 1) == 0;
        BytesOfConcatenation(EscapedUnit(s[i]), Escape(s, i + 1));
      }
    }
  }

  /** The text neither begins nor ends with half of a pair that could be continued. */
  predicate Closed(s: JsString) {
    s != [] ==> s[0] < 0x80 && s[|s| - 1] < 0x80
  }

  lemma BytesOfClosed(a: JsString, b: JsString)
    requires Closed(a) || Closed(b)
    ensures Utf8Bytes(a + b, 0) == Utf8Bytes(a, 0) + Utf8Bytes(b, 0)
  {
    BytesOfConcatenation(a, b);
  }

  lemma BytesOfQuote(s: JsString)
    ensures Closed(Quote(s)) && Quote(s) != [] && Utf8Bytes(Quote(s), 0) == 2 + EscapedBytes(s, 0)
  {
    BytesOfEscape(s, 0);
    BytesOfUnit(34);
    BytesOfClosed([34], Escape(s, 0));
    BytesOfClosed([34] + Escape(s, 0), [34]);
  }

  lemma BytesInBrackets(open: CodeUnit, s: JsString, close: CodeUnit)
    requires open < 0x80 && close < 0x80
    ensures var r := [open] + s + [close]; Closed(r) && Utf8Bytes(r, 0) == 2 + Utf8Bytes(s, 0)
  {
    BytesOfUnit(open);
    BytesOfUnit(close);
    BytesOfClosed([open], s);
    BytesOfClosed([open] + s, [close]);
  }

  /** The byte count of the limit is the length of the serialised text in UTF-8. */
  lemma {:induction false} BytesOfText(v: Json)
    requires WellFormed(v)
    ensures Closed(Stringify(v)) && Utf8Bytes(Stringify(v), 0) == SerializedBytes(v)
    decreases v, 1
  {
    match v
    case Null => BytesOfPlain(Stringify(v), 0);
    case Bool(_) => BytesOfPlain(Stringify(v), 0);
    case Num(text) => BytesOfPlain(text, 0);
    case Str(s) => BytesOfQuote(s);
    case Arr(items) =>
      BytesOfElements(items);
      BytesInBrackets(91, Elements(items), 93);
    case Obj(names, values) =>
      BytesOfMembers(names, values);
      BytesInBrackets(123, Members(names, values), 125);
  }

  lemma BytesOfAppended(before: JsString, n: nat, text: JsString)
    requires Closed(before) && Closed(text)
    ensures var r := before + Comma(n) + text;
            && Utf8Bytes(r, 0) == Utf8Bytes(before, 0) + (if n > 1 then 1 else 0) + Utf8Bytes(text, 0)
            && Closed(r)
  {
    BytesOfUnit(44);
    BytesOfClosed(before, Comma(n));
    BytesOfClosed(before + Comma(n), text);
  }

  lemma {:induction false} BytesOfElements(vs: seq<Json>)
    requires forall i :: 0 <= i < |vs| ==> WellFormed(vs[i])
    ensures Closed(Elements(vs)) && Utf8Bytes(Elements(vs), 0) == Commas(|vs|) + AllBytes(vs)
    decreases vs, 0
  {
    if vs != [] {
      var init, last := vs[..|vs| - 1], vs[|vs| - 1];
      BytesOfElements(init);
      BytesOfText(last);
      BytesOfAppended(Elements(init), |vs|, Stringify(last));
    }
  }

  lemma BytesOfMember(name: JsString, text: JsString)
    requires Closed(text)
    ensures var r := Quote(name) + [58] + text;
            Closed(r) && Utf8Bytes(r, 0) == EscapedBytes(name, 0) + 3 + Utf8Bytes(text, 0)
  {
    BytesOfQuote(name);
    BytesOfUnit(58);
    BytesOfClosed(Quote(name), [58]);
    BytesOfClosed(Quote(name) + [58], text);
  }

  lemma {:induction false} BytesOfMembers(names: seq<JsString>, values: seq<Json>)
    requires |names| == |values| && forall i :: 0 <= i < |values| ==> WellFormed(values[i])
    ensures Closed(Members(names, values))
    ensures Utf8Bytes(Members(names, values), 0) == Commas(|values|) + NameBytes(names) + AllBytes(values)
    decreases values, 0
  {
    if values != [] {
      var n := |values| - 1;
      BytesOfMembers(names[..n], values[..n]);
      BytesOfText(values[n]);
      BytesOfMember(names[n], Stringify(values[n]));
      BytesOfAppended(Members(names[..n], values[..n]), |values|, Quote(names[n]) + [58] + Stringify(values[n]));
    }
  }

  // ---- The limits in bytes

  /** The string values of a tree; names are not among them. */
  function StringValues(v: Json): set<JsString>
    decreases v
  {
    (if v.Str? then {v.s} else {}) + set c, s | c in Children(v) && s in StringValues(c) :: s
  }

  lemma {:induction false} StringsWithinIff(v: Json)
    ensures StringsWithin(v) <==> forall s :: s in StringValues(v) ==> Utf8Bytes(s, 0) <= 65_536
    decreases v
  {
    forall c | c in Children(v)
      ensures StringsWithin(c) <==> forall s :: s in StringValues(c) ==> Utf8Bytes(s, 0) <= 65_536
    {
      StringsWithinIff(c);
    }
    if StringsWithin(v) {
      forall s | s in StringValues(v) ensures Utf8Bytes(s, 0) <= 65_536 {
      }
    }
    if v.Str? {
      assert Children(v) == [];
      assert StringValues(v) == {v.s};
      assert StringsWithin(v) == ShortString(v);
    } else if !StringsWithin(v) {
      var c :| c in Children(v) && !StringsWithin(c);
      var s :| s in StringValues(c) && Utf8Bytes(s, 0) > 65_536;
      assert s in StringValues(v);
    }
  }

  /** A JSON value is accepted iff it has at most 2000 nodes, no more than 12 levels below the root, string values of at
      most 65536 bytes each, and a serialised text of at most 524288 bytes in UTF-8; its size is then that of the text.
      */
  lemma AcceptedByText(v: Json)
    requires WellFormed(v)
    ensures Judge(Given(v)).Accepted? <==>
              && Nodes(v) <= 2_000 && DepthWithin(v, 12)
              && (forall s :: s in StringValues(v) ==> Utf8Bytes(s, 0) <= 65_536)
              && Utf8Bytes(Stringify(v), 0) <= 524_288
    ensures Judge(Given(v)).Accepted? ==> Judge(Given(v)).bytes == Utf8Bytes(Stringify(v), 0)
  {
    AcceptedIff(Given(v));
    StringsWithinIff(v);
    BytesOfText(v);
  }
}
