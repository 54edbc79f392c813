/** The values `json.loads` produces, and what the modelled code does with them: Python
    truthiness, `dict.get`, integer arithmetic on a line number, and `str()` when a value is
    spliced into text. Decoding itself is external and is passed to the operations that use it. */
module JsonValues {
  import opened Outcomes
  import opened Text
  import opened Numerals

  /** A decoded JSON value; an object keeps its keys in document order. `json.loads` gives an
      object each key once (of repeated keys in the text the last value wins); the operations
      below are stated for any list of entries, which includes every such object. */
  datatype Json =
    | JNull
    | JBool(b: bool)
    | JInt(i: int)
    | JStr(s: string)
    | JList(items: seq<Json>)
    | JObject(entries: seq<(string, Json)>)

  /** `json.loads` as the modelled code sees it: `None` where it raises `JSONDecodeError`. */
  type Decoder = string -> Option<Json>

  /** Python's truth value of a decoded value: the false ones are exactly `None`, `False`, `0`
      and the empty string, list and object. */
  predicate Truthy(j: Json)
    ensures !Truthy(j) <==> j in {JNull, JBool(false), JInt(0), JStr(""), JList([]), JObject([])}
  {
    match j
    case JNull => false
    case JBool(b) => b
    case JInt(i) => i != 0
    case JStr(s) => s != ""
    case JList(items) => items != []
    case JObject(entries) => entries != []
  }

  /** `d.get(key)` on a decoded object: `None` when the key is absent, else the value of the
      first entry with that key (the only one, for an object `json.loads` returns). */
  function Get(entries: seq<(string, Json)>, key: string): (r: Option<Json>)
    ensures r.Some? ==> (key, r.value) in entries
    decreases |entries|
  {
    if entries == [] then None
    else if entries[0].0 == key then Some(entries[0].1)
    else Get(entries[1..], key)
  }

  /** `get` finds a value exactly when the key is present, and the value it finds is the one
      recorded under the key. */
  lemma {:induction false} GetFindsKey(entries: seq<(string, Json)>, key: string)
    ensures Get(entries, key).Some? <==> exists i :: 0 <= i < |entries| && entries[i].0 == key
    ensures Get(entries, key).Some? ==> exists i :: 0 <= i < |entries| && entries[i] == (key, Get(entries, key).value)
    decreases |entries|
  {
    if entries != [] {
      if entries[0].0 == key {
        assert entries[0] == (key, entries[0].1);
      } else {
        var tail := entries[1..];
        GetFindsKey(tail, key);
        assert forall i :: 0 <= i < |tail| ==> tail[i] == entries[i + 1];
        if exists i :: 0 <= i < |entries| && entries[i].0 == key {
          var i :| 0 <= i < |entries| && entries[i].0 == key;
          assert tail[i - 1].0 == key;
        }
      }
    }
  }

  /** The value `get` finds is that of the first entry with the key. */
  lemma {:induction false} GetTakesFirst(entries: seq<(string, Json)>, key: string)
    requires Get(entries, key).Some?
    ensures exists i :: 0 <= i < |entries| && entries[i] == (key, Get(entries, key).value)
                        && forall j :: 0 <= j < i ==> entries[j].0 != key
    decreases |entries|
  {
    if entries[0].0 != key {
      var tail := entries[1..];
      GetTakesFirst(tail, key);
      var i :| 0 <= i < |tail| && tail[i] == (key, Get(tail, key).value)
                && forall j :: 0 <= j < i ==> tail[j].0 != key;
      assert entries[i + 1] == tail[i];
      forall j | 0 <= j < i + 1
        ensures entries[j].0 != key
      {
        if j > 0 {
          assert entries[j] == tail[j - 1];
        }
      }
    } else {
      assert entries[0] == (key, Get(entries, key).value);
    }
  }

  /** The integer a value stands for in `n - 1` and slicing: an int, or a bool (Python's
      `True` is 1); any other value makes the arithmetic raise `TypeError`. */
  function AsInteger(j: Json): (r: Option<int>)
    ensures r.Some? <==> j.JInt? || j.JBool?
    ensures r.Some? ==> r.value == (if j.JBool? then (if j.b then 1 else 0) else j.i)
  {
    match j
    case JInt(i) => Some(i)
    case JBool(b) => Some(if b then 1 else 0)
    case _ => None
  }

  /** `repr(s)` for a string: single quotes unless the text has a single quote and no double
      quote; backslash and the chosen quote are escaped with a backslash, tab, newline and
      carriage return as `\t`, `\n`, `\r`, and a character that is not printable by its code
      point. */
  function ReprString(s: string): (r: string)
    ensures |r| >= |s| + 2
    ensures r[0] == r[|r| - 1] && (r[0] == '\'' || r[0] == '"')
    ensures (forall k :: 0 <= k < |s| ==> PrintsAsIs(s[k], r[0])) ==> r == [r[0]] + s + [r[0]]
  {
    var q := if '\'' in s && '"' !in s then '"' else '\'';
    EscapeForPrintsAsIs(s, q);
    [q] + EscapeFor(s, q) + [q]
  }

  /** `str.isprintable()` is false for a character of these groups: the control characters, the
      separators other than the space, the format characters listed here (the soft hyphen, the
      Arabic number signs, the Mongolian vowel separator, the zero-width and bidirectional
      controls, the word joiner and its neighbours, the byte order mark, the interlinear
      annotation marks, shorthand, musical and Egyptian format controls and the tags), the
      private-use characters and the unassigned code points in these ranges. */
  predicate NonPrintable(c: char) {
    || c < ' ' || ('\U{7f}' <= c <= '\U{a0}') || c == '\U{ad}'
    || ('\U{600}' <= c <= '\U{605}') || c == '\U{61c}' || c == '\U{6dd}' || c == '\U{70f}'
    || ('\U{890}' <= c <= '\U{891}') || c == '\U{8e2}' || c == '\U{1680}' || c == '\U{180e}'
    || ('\U{2000}' <= c <= '\U{200f}') || ('\U{2028}' <= c <= '\U{202f}')
    || ('\U{205f}' <= c <= '\U{206f}') || c == '\U{3000}' || ('\U{e000}' <= c <= '\U{f8ff}')
    || c == '\U{feff}' || ('\U{fff0}' <= c <= '\U{fffb}') || ('\U{fffe}' <= c <= '\U{ffff}')
    || c == '\U{110bd}' || c == '\U{110cd}' || ('\U{13430}' <= c <= '\U{1343f}')
    || ('\U{1bca0}' <= c <= '\U{1bca3}') || ('\U{1d173}' <= c <= '\U{1d17a}')
    || ('\U{e0000}' <= c <= '\U{e00ff}') || '\U{f0000}' <= c
  }

  /** A character `repr` copies as it is inside quotes `q`. */
  predicate PrintsAsIs(c: char, q: char) {
    c != '\\' && c != q && !NonPrintable(c)
  }

  /** The lower-case hexadecimal digit of `d`. */
  function HexDigit(d: nat): char
    requires d < 16
  {
    if d < 10 then ('0' as int + d) as char else ('a' as int + d - 10) as char
  }

  /** The value of a lower-case hexadecimal digit. */
  function HexValue(c: char): nat {
    if '0' <= c <= '9' then c as int - '0' as int
    else if 'a' <= c <= 'f' then c as int - 'a' as int + 10
    else 0
  }

  /** The last `width` hexadecimal digits of `n`, with leading zeros. */
  function HexDigits(n: nat, width: nat): (r: string)
    ensures |r| == width
  {
    if width == 0 then "" else HexDigits(n / 16, width - 1) + [HexDigit(n % 16)]
  }

  /** The number a string of hexadecimal digits spells. */
  function HexNumber(s: string): nat
    decreases |s|
  {
    if s == [] then 0 else HexNumber(s[..|s| - 1]) * 16 + HexValue(s[|s| - 1])
  }

  function Power16(width: nat): nat {
    if width == 0 then 1 else 16 * Power16(width - 1)
  }

  /** Reading back the digits gives the number, when it fits in the width. */
  lemma {:induction false} HexDigitsValue(n: nat, width: nat)
    requires n < Power16(width)
    ensures HexNumber(HexDigits(n, width)) == n
  {
    if width > 0 {
      var r := HexDigits(n, width);
      var d := n % 16;
      HexValueOfDigit(d);
      assert r[..|r| - 1] == HexDigits(n / 16, width - 1);
      assert r[|r| - 1] == HexDigit(d);
      QuotientBound(n, Power16(width - 1));
      HexDigitsValue(n / 16, width - 1);
      assert HexNumber(r) == HexNumber(HexDigits(n / 16, width - 1)) * 16 + d;
    }
  }

  lemma HexValueOfDigit(d: nat)
    requires d < 16
    ensures HexValue(HexDigit(d)) == d
  {
  }

  lemma QuotientBound(n: nat, p: nat)
    requires n < 16 * p
    ensures n / 16 < p && n / 16 * 16 + n % 16 == n
  {
  }

  /** The escape of a character that is not printable: `\x` and two digits below 256, `\u`
      and four below 65536, `\U` and eight above. */
  function CodeEscape(c: char): (r: string)
    ensures |r| >= 4 && r[0] == '\\' && HexNumber(r[2..]) == c as int
  {
    var n := c as int;
    if n < 0x100 then HexDigitsValue(n, 2); "\\x" + HexDigits(n, 2)
    else if n < 0x1_0000 then HexDigitsValue(n, 4); "\\u" + HexDigits(n, 4)
    else HexDigitsValue(n, 8); "\\U" + HexDigits(n, 8)
  }

  /** The escape of one character inside quotes `q`. */
  function CharRepr(c: char, q: char): (r: string)
    ensures PrintsAsIs(c, q) ==> r == [c]
    ensures !PrintsAsIs(c, q) ==> |r| >= 2 && r[0] == '\\'
  {
    if c == '\\' then "\\\\"
    else if c == q then ['\\', q]
    else if c == '\t' then "\\t"
    else if c == '\n' then "\\n"
    else if c == '\r' then "\\r"
    else if NonPrintable(c) then CodeEscape(c)
    else [c]
  }

  function EscapeFor(s: string, q: char): (r: string)
    ensures |r| >= |s|
    decreases |s|
  {
    if s == [] then "" else CharRepr(s[0], q) + EscapeFor(s[1..], q)
  }

  /** Text without anything to escape is copied as it is. */
  lemma {:induction false} EscapeForPrintsAsIs(s: string, q: char)
    ensures (forall k :: 0 <= k < |s| ==> PrintsAsIs(s[k], q)) ==> EscapeFor(s, q) == s
    decreases |s|
  {
    if s != [] && forall k :: 0 <= k < |s| ==> PrintsAsIs(s[k], q) {
      assert PrintsAsIs(s[0], q);
      assert forall k :: 0 <= k < |s| - 1 ==> s[1..][k] == s[k + 1];
      EscapeForPrintsAsIs(s[1..], q);
      assert s == [s[0]] + s[1..];
    }
  }

  lemma ReprStringOfControlCharacter()
    ensures ReprString("\U{1}") == "'\\x01'"
  {
    assert HexDigits(1, 2) == "01";
    assert CharRepr('\U{1}', '\'') == "\\x01";
    assert EscapeFor("\U{1}", '\'') == "\\x01";
  }

  /** A control character inside a list is spelled out: `str(['\x01'])`. */
  lemma ReprOfControlCharacter()
    ensures Repr(JList([JStr("\U{1}")])) == "['\\x01']"
  {
    var items := [JStr("\U{1}")];
    ReprStringOfControlCharacter();
    assert Repr(items[0]) == "'\\x01'";
    assert seq(|items|, i requires 0 <= i < |items| => Repr(items[i])) == ["'\\x01'"];
    assert Join(["'\\x01'"], ", ") == "'\\x01'";
  }

  /** `repr(j)`: never empty, a list in brackets, an object in braces, a string in quotes. */
  function Repr(j: Json): (r: string)
    ensures r != []
    ensures j.JList? ==> r[0] == '[' && r[|r| - 1] == ']'
    ensures j.JObject? ==> r[0] == '{' && r[|r| - 1] == '}'
    ensures j.JStr? ==> r[0] == r[|r| - 1] && (r[0] == '\'' || r[0] == '"')
  {
    match j
    case JStr(s) => ReprString(s)
    case JList(items) =>
      "[" + Join(seq(|items|, i requires 0 <= i < |items| => Repr(items[i])), ", ") + "]"
    case JObject(entries) =>
      "{" + Join(seq(|entries|, i requires 0 <= i < |entries| =>
                   ReprString(entries[i].0) + ": " + Repr(entries[i].1)), ", ") + "}"
    case JNull => "None"
    case JBool(b) => if b then "True" else "False"
    case JInt(i) => IntToString(i)
  }

  /** `str(j)`, what an f-string splices in: a string as it is, anything else as its `repr`. */
  function Str(j: Json): (r: string)
    ensures r == "" <==> j == JStr("")
    ensures j.JStr? ==> r == j.s
  {
    if j.JStr? then j.s else Repr(j)
  }
}
