/** JavaScript strings: sequences of UTF-16 code units, with the white space that
    `String.prototype.trim` removes. */
module Text {
  type CodeUnit = u: int | 0 <= u < 0x1_0000
  type JsString = seq<CodeUnit>

  const NEWLINE: CodeUnit := 10
  const CARRIAGE_RETURN: CodeUnit := 13
  const SPACE: CodeUnit := 32

  predicate IsSpace(c: CodeUnit) {
    9 <= c <= 13 || c == SPACE || c == 0xA0 || c == 0x1680 || 0x2000 <= c <= 0x200A
    || c == 0x2028 || c == 0x2029 || c == 0x202F || c == 0x205F || c == 0x3000 || c == 0xFEFF
  }

  /** The 25 units that count as white space. */
  lemma SpacesAre(c: CodeUnit)
    ensures IsSpace(c) <==>
              c in {0x09, 0x0A, 0x0B, 0x0C, 0x0D, 0x20, 0xA0, 0x1680, 0x2000, 0x2001, 0x2002, 0x2003, 0x2004, 0x2005,
                    0x2006, 0x2007, 0x2008, 0x2009, 0x200A, 0x2028, 0x2029, 0x202F, 0x205F, 0x3000, 0xFEFF}
  {
  }

  ghost predicate Blank(s: JsString) {
    forall i :: 0 <= i < |s| ==> IsSpace(s[i])
  }

  /** The first place at or after `from` that is not white space, or the end. */
  function InkStart(s: JsString, from: nat): (n: nat)
    requires from <= |s|
    ensures from <= n <= |s|
    ensures forall i :: from <= i < n ==> IsSpace(s[i])
    ensures n < |s| ==> !IsSpace(s[n])
    decreases |s| - from
  {
    if from < |s| && IsSpace(s[from]) then InkStart(s, from + 1) else from
  }

  /** Where the last unit before `upto` that is not white space ends. */
  function InkEnd(s: JsString, upto: nat): (n: nat)
    requires upto <= |s|
    ensures n <= upto
    ensures forall i :: n <= i < upto ==> IsSpace(s[i])
    ensures n > 0 ==> !IsSpace(s[n - 1])
  {
    if upto > 0 && IsSpace(s[upto - 1]) then InkEnd(s, upto - 1) else upto
  }

  function Trim(s: JsString): (r: JsString)
    ensures r == [] <==> Blank(s)
    ensures r != [] ==> !IsSpace(r[0]) && !IsSpace(r[|r| - 1])
    ensures |r| <= |s|
  {
    var a, b := InkStart(s, 0), InkEnd(s, |s|);
    if a >= b then [] else s[a..b]
  }

  /** Trimming takes white space off both ends and nothing else. */
  lemma TrimCuts(s: JsString) returns (a: nat, b: nat)
    ensures a <= b <= |s| && Trim(s) == s[a..b] && Blank(s[..a]) && Blank(s[b..])
    ensures a < b ==> !IsSpace(s[a]) && !IsSpace(s[b - 1])
  {
    a, b := InkStart(s, 0), InkEnd(s, |s|);
    if a >= b {
      assert Blank(s);
      a, b := 0, 0;
    }
  }

  /** Every occurrence of "\r\n" becomes "\n", left to right. */
  function UnixNewlines(s: JsString): JsString {
    if |s| == 0 then []
    else if |s| >= 2 && s[0] == CARRIAGE_RETURN && s[1] == NEWLINE then [NEWLINE] + UnixNewlines(s[2..])
    else [s[0]] + UnixNewlines(s[1..])
  }

  predicate HasCrLf(s: JsString) {
    exists i :: 0 <= i < |s| - 1 && s[i] == 13 && s[i + 1] == 10
  }

  lemma CrLfInTail(s: JsString)
    requires s != []
    ensures HasCrLf(s[1..]) ==> HasCrLf(s)
  {
    var tail := s[1..];
    if HasCrLf(tail) {
      var i :| 0 <= i < |tail| - 1 && tail[i] == 13 && tail[i + 1] == 10;
      assert s[i + 1] == 13 && s[i + 2] == 10;
    }
  }

  /** Text without "\r\n" is left alone. */
  lemma {:induction false} NoCrLfStays(s: JsString)
    requires !HasCrLf(s)
    ensures UnixNewlines(s) == s
  {
    if s != [] {
      CrLfInTail(s);
      NoCrLfStays(s[1..]);
    }
  }

  /** Wherever a "\r\n" stands, it becomes "\n" and the rest on both sides is treated for itself. */
  lemma {:induction false} CrLfBecomesLf(a: JsString, b: JsString)
    ensures UnixNewlines(a + [13, 10] + b) == UnixNewlines(a) + [10] + UnixNewlines(b)
    decreases |a|
  {
    var s := a + [13, 10] + b;
    if a == [] {
      assert s[2..] == b && s[0] == 13 && s[1] == 10;
    } else if |a| >= 2 && a[0] == 13 && a[1] == 10 {
      assert s[2..] == a[2..] + [13, 10] + b;
      CrLfBecomesLf(a[2..], b);
    } else {
      assert s[1..] == a[1..] + [13, 10] + b;
      assert !(s[0] == 13 && s[1] == 10);
      CrLfBecomesLf(a[1..], b);
    }
  }

  /** What is not white space, in order. */
  function Ink(s: JsString): JsString {
    if s == [] then [] else (if IsSpace(s[0]) then [] else [s[0]]) + Ink(s[1..])
  }

  /** Normalizing line ends loses nothing but white space. */
  lemma {:induction false} InkKept(s: JsString)
    ensures Ink(UnixNewlines(s)) == Ink(s)
    decreases |s|
  {
    if |s| >= 2 && s[0] == CARRIAGE_RETURN && s[1] == NEWLINE {
      InkKept(s[2..]);
      assert s[1..][0] == NEWLINE && s[1..][1..] == s[2..];
      assert ([NEWLINE] + UnixNewlines(s[2..]))[1..] == UnixNewlines(s[2..]);
    } else if s != [] {
      InkKept(s[1..]);
      assert ([s[0]] + UnixNewlines(s[1..]))[1..] == UnixNewlines(s[1..]);
    }
  }

  predicate OccursAt(t: JsString, pattern: JsString, p: int) {
    0 <= p && p + |pattern| <= |t| && forall i :: 0 <= i < |pattern| ==> t[p + i] == pattern[i]
  }

  /** `t.lastIndexOf(pattern, from)`: the last place at or before `from` where the pattern starts. */
  function LastIndexOf(t: JsString, pattern: JsString, from: int): (r: int)
    requires -1 <= from
    ensures -1 <= r <= from
    ensures r >= 0 ==> OccursAt(t, pattern, r)
    ensures forall p :: r < p <= from ==> !OccursAt(t, pattern, p)
  {
    if from < 0 then -1
    else if OccursAt(t, pattern, from) then from
    else LastIndexOf(t, pattern, from - 1)
  }
}
