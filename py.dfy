/**
 * The slice of Python value semantics the service relies on: JSON-shaped
 * values (what `json.loads` and DynamoDB hand back), truthiness, `dict.get`,
 * `or`, `str()` of scalars, and the string methods `strip`, `rstrip`,
 * `lower`, `upper`, `in` and `replace`.
 */
module Py {

  datatype Option<+T> = None | Some(value: T) {
    function GetOr(default: T): T {
      match this
      case Some(v) => v
      case None => default
    }
  }

  /** A decoded JSON value. Python dictionaries become maps. */
  datatype Json =
    | JNull
    | JBool(b: bool)
    | JInt(i: int)
    | JStr(s: string)
    | JList(items: seq<Json>)
    | JObj(fields: map<string, Json>)

  /** A Python `dict` with string keys. */
  type Doc = map<string, Json>

  /** Python truthiness: None, False, 0 and empty containers are falsy. */
  predicate Truthy(v: Json) {
    match v
    case JNull => false
    case JBool(b) => b
    case JInt(i) => i != 0
    case JStr(s) => s != ""
    case JList(xs) => xs != []
    case JObj(m) => m != map[]
  }

  /** `d.get(k)`: a missing key reads as None, like a JSON null. */
  function Get(d: Doc, k: string): Json {
    if k in d then d[k] else JNull
  }

  /** Python's `a or b`. */
  function Or(a: Json, b: Json): Json {
    if Truthy(a) then a else b
  }

  /** Values whose `str()` the model writes out (containers need `repr`). */
  predicate IsScalar(v: Json) {
    !v.JList? && !v.JObj?
  }

  /** A value on which `.strip()` / `.lower()` is safe after `v or ""`. */
  predicate Textual(v: Json) {
    !Truthy(v) || v.JStr?
  }

  /** The text `(v or "")` denotes once `Textual(v)` holds. */
  function TextOf(v: Json): string
    requires Textual(v)
  {
    if Truthy(v) then v.s else ""
  }

  /** Python's class name, as it appears in an AttributeError message. */
  function TypeName(v: Json): string {
    match v
    case JNull => "NoneType"
    case JBool(_) => "bool"
    case JInt(_) => "int"
    case JStr(_) => "str"
    case JList(_) => "list"
    case JObj(_) => "dict"
  }

  function DigitChar(d: nat): char
    requires d < 10
  {
    ('0' as int + d) as char
  }

  function NatToString(n: nat): (r: string)
    ensures |r| >= 1
    ensures forall i :: 0 <= i < |r| ==> IsDigit(r[i])
  {
    if n < 10 then [DigitChar(n)] else NatToString(n / 10) + [DigitChar(n % 10)]
  }

  /** `str()` of a scalar value. */
  function Str(v: Json): string
    requires IsScalar(v)
  {
    match v
    case JNull => "None"
    case JBool(b) => if b then "True" else "False"
    case JInt(i) => if i < 0 then "-" + NatToString(-i) else NatToString(i)
    case JStr(s) => s
  }

  predicate IsDigit(c: char) {
    '0' <= c <= '9'
  }

  /** `str.isspace()`: the characters Python's `strip()` removes. */
  predicate IsSpace(c: char) {
    var n := c as int;
    (0x09 <= n <= 0x0D) || (0x1C <= n <= 0x20) || n == 0x85 || n == 0xA0 || n == 0x1680
    || (0x2000 <= n <= 0x200A) || n == 0x2028 || n == 0x2029 || n == 0x202F
    || n == 0x205F || n == 0x3000
  }

  function TrimLeft(s: string): (r: string)
    ensures |r| <= |s|
    ensures r == [] || !IsSpace(r[0])
  {
    if s != [] && IsSpace(s[0]) then TrimLeft(s[1..]) else s
  }

  function TrimRight(s: string): (r: string)
    ensures |r| <= |s|
    ensures r == [] || !IsSpace(r[|r| - 1])
  {
    if s != [] && IsSpace(s[|s| - 1]) then TrimRight(s[..|s| - 1]) else s
  }

  /** `s.strip()` */
  function Strip(s: string): string {
    TrimRight(TrimLeft(s))
  }

  lemma {:induction false} TrimLeftAllSpace(s: string)
    requires forall i :: 0 <= i < |s| ==> IsSpace(s[i])
    ensures TrimLeft(s) == []
  {
    if s != [] {
      TrimLeftAllSpace(s[1..]);
    }
  }

  /** Whitespace only strips to the empty string. */
  lemma StripAllSpace(s: string)
    requires forall i :: 0 <= i < |s| ==> IsSpace(s[i])
    ensures Strip(s) == []
  {
    TrimLeftAllSpace(s);
  }

  lemma {:induction false} TrimRightIsPrefix(s: string)
    ensures TrimRight(s) <= s
  {
    if s != [] && IsSpace(s[|s| - 1]) {
      TrimRightIsPrefix(s[..|s| - 1]);
    }
  }

  /** A stripped string neither starts nor ends with whitespace. */
  lemma StripTrims(s: string)
    ensures var r := Strip(s); r == [] || (!IsSpace(r[0]) && !IsSpace(r[|r| - 1]))
  {
    TrimRightIsPrefix(TrimLeft(s));
  }

  /** `s.rstrip(c)` for a single character `c`. */
  function RStripChar(s: string, c: char): (r: string)
    ensures r == [] || r[|r| - 1] != c
  {
    if s != [] && s[|s| - 1] == c then RStripChar(s[..|s| - 1], c) else s
  }

  function LowerChar(c: char): char {
    if 'A' <= c <= 'Z' then (c as int + 32) as char else c
  }

  function UpperChar(c: char): char {
    if 'a' <= c <= 'z' then (c as int - 32) as char else c
  }

  /** `s.lower()` (ASCII letters). */
  function Lower(s: string): (r: string)
    ensures |r| == |s|
  {
    if s == [] then [] else [LowerChar(s[0])] + Lower(s[1..])
  }

  /** `s.upper()` (ASCII letters). */
  function Upper(s: string): (r: string)
    ensures |r| == |s|
  {
    if s == [] then [] else [UpperChar(s[0])] + Upper(s[1..])
  }

  /** `lower()` works character by character, so it distributes over concatenation. */
  lemma {:induction false} LowerAppend(a: string, b: string)
    ensures Lower(a + b) == Lower(a) + Lower(b)
  {
    if a != [] {
      var t := a + b;
      assert t[0] == a[0] && t[1..] == a[1..] + b;
      LowerAppend(a[1..], b);
      var head, rest, tail := [LowerChar(a[0])], Lower(a[1..]), Lower(b);
      assert Lower(t) == head + (rest + tail);
      assert head + (rest + tail) == (head + rest) + tail;
    } else {
      assert a + b == b;
    }
  }

  /** `needle in hay` for strings: substring test. */
  predicate Contains(hay: string, needle: string) {
    needle <= hay || (hay != [] && Contains(hay[1..], needle))
  }

  /** An occurrence of `w` in `s`, stated by position. */
  ghost predicate OccursAt(s: string, w: string, i: int) {
    0 <= i && i + |w| <= |s| && s[i..i + |w|] == w
  }

  /** `needle in hay` holds exactly when the needle occurs at some position of the hay. */
  lemma {:induction false} ContainsIff(hay: string, needle: string)
    ensures Contains(hay, needle) <==> exists j :: OccursAt(hay, needle, j)
    decreases |hay|
  {
    if needle <= hay {
      assert OccursAt(hay, needle, 0);
    } else if hay != [] {
      var tail := hay[1..];
      ContainsIff(tail, needle);
      if j' :| OccursAt(tail, needle, j') {
        assert tail[j'..j' + |needle|] == hay[j' + 1..j' + 1 + |needle|];
        assert OccursAt(hay, needle, j' + 1);
      }
      if j :| OccursAt(hay, needle, j) && j > 0 {
        assert tail[j - 1..j - 1 + |needle|] == hay[j..j + |needle|];
        assert OccursAt(tail, needle, j - 1);
      }
    }
  }

  /** `s.replace(pat, sub)` for a non-empty `pat`: left to right, non-overlapping. */
  function ReplaceAll(s: string, pat: string, sub: string): string
    requires pat != []
    decreases |s|
  {
    if |s| < |pat| then s
    else if s[..|pat|] == pat then sub + ReplaceAll(s[|pat|..], pat, sub)
    else [s[0]] + ReplaceAll(s[1..], pat, sub)
  }
}
