/** The call-graph queries against Joern: a session that must load a code property graph before
    any query, the command text sent to the Joern process, and the parsing of its transcript into
    a method signature, callees and callers. Running Joern and decoding JSON are external and are
    passed in. */
module JoernCallgraph {
  import opened Outcomes
  import opened Text
  import opened Numerals
  import opened JsonValues
  import opened Syntax
  import opened RetrievalUtils

  const Esc: char := '\U{1b}'

  /** The length of the run of digits and semicolons at the front of `s`. */
  function ParamRun(s: string): (n: nat)
    ensures n <= |s|
    ensures forall k :: 0 <= k < n ==> IsDigit(s[k]) || s[k] == ';'
    ensures n < |s| ==> !(IsDigit(s[n]) || s[n] == ';')
    decreases |s|
  {
    if s != [] && (IsDigit(s[0]) || s[0] == ';') then
      var n := 1 + ParamRun(s[1..]);
      assert forall k :: 1 <= k < n ==> s[k] == s[1..][k - 1];
      n
    else 0
  }

  /** The length of the colour sequence `ESC [ [0-9;]* m` at the front of `s`, or 0. */
  function SgrLength(s: string): (n: nat)
    ensures n == 0 || (3 <= n <= |s| && s[0] == Esc && s[1] == '[' && s[n - 1] == 'm')
  {
    if |s| >= 2 && s[0] == Esc && s[1] == '[' then
      var k := 2 + ParamRun(s[2..]);
      if k < |s| && s[k] == 'm' then k + 1 else 0
    else 0
  }

  /** `re.sub(r'\x1b\[[0-9;]*m', '', s)`: one left-to-right pass that drops every colour
      sequence it meets, without looking again at the text that results. */
  function StripAnsi(s: string): (r: string)
    ensures |r| <= |s|
    decreases |s|
  {
    if s == [] then []
    else
      var n := SgrLength(s);
      if n > 0 then StripAnsi(s[n..]) else [s[0]] + StripAnsi(s[1..])
  }

  /** Text without an escape character passes through unchanged. */
  lemma {:induction false} StripAnsiPlain(s: string)
    requires Esc !in s
    ensures StripAnsi(s) == s
    decreases |s|
  {
    if s != [] {
      assert s[0] != Esc;
      StripAnsiPlain(s[1..]);
    }
  }

  /** Text without an escape character in front of the rest passes through unchanged,
      so colour codes after ordinary characters are removed as well. */
  lemma {:induction false} StripAnsiPlainPrefix(p: string, s: string)
    requires Esc !in p
    ensures StripAnsi(p + s) == p + StripAnsi(s)
    decreases |p|
  {
    if p != [] {
      var t := p + s;
      assert t[0] == p[0] != Esc;
      assert SgrLength(t) == 0;
      assert t[1..] == p[1..] + s;
      StripAnsiPlainPrefix(p[1..], s);
      SeqAssociates([p[0]], p[1..], StripAnsi(s));
      assert [p[0]] + p[1..] == p;
    } else {
      assert p + s == s;
    }
  }

  /** A colour code in the middle of a line is removed: `a ESC[32m b` becomes `ab`. */
  lemma StripAnsiInsideLine()
    ensures StripAnsi(['a', Esc, '[', '3', '2', 'm', 'b']) == ['a', 'b']
  {
    StripAnsiPlainPrefix(['a'], [Esc, '['] + ['3', '2'] + ['m'] + ['b']);
    StripAnsiDropsColour(['3', '2'], ['b']);
    StripAnsiPlain(['b']);
    assert ['a'] + ([Esc, '['] + ['3', '2'] + ['m'] + ['b']) == ['a', Esc, '[', '3', '2', 'm', 'b'];
  }

  lemma {:induction false} ParamRunStopsAt(params: string, rest: string)
    requires forall k :: 0 <= k < |params| ==> IsDigit(params[k]) || params[k] == ';'
    ensures ParamRun(params + ['m'] + rest) == |params|
    decreases |params|
  {
    if params != [] {
      assert (params + ['m'] + rest)[1..] == params[1..] + ['m'] + rest;
      ParamRunStopsAt(params[1..], rest);
    } else {
      assert (params + ['m'] + rest)[0] == 'm';
    }
  }

  /** A leading colour sequence is removed whole, whatever its parameters. */
  lemma StripAnsiDropsColour(params: string, rest: string)
    requires forall k :: 0 <= k < |params| ==> IsDigit(params[k]) || params[k] == ';'
    ensures StripAnsi([Esc, '['] + params + ['m'] + rest) == StripAnsi(rest)
  {
    var s := [Esc, '['] + params + ['m'] + rest;
    assert s[2..] == params + ['m'] + rest;
    ParamRunStopsAt(params, rest);
    assert s[|params| + 2] == 'm';
    assert s[|params| + 3..] == rest;
  }

  /** A single pass can leave a colour sequence behind: removing the inner one joins the
      surrounding characters into a new one. */
  lemma StripAnsiIsOnePass()
    ensures StripAnsi([Esc, Esc, '[', 'm', '[', 'm']) == [Esc, '[', 'm']
    ensures StripAnsi([Esc, '[', 'm']) == []
  {
    var s := [Esc, Esc, '[', 'm', '[', 'm'];
    assert SgrLength(s) == 0;
    assert s[1..] == [Esc, '['] + [] + ['m'] + ['[', 'm'];
    StripAnsiDropsColour([], ['[', 'm']);
    StripAnsiPlain(['[', 'm']);
    assert StripAnsi(s) == [Esc] + StripAnsi(s[1..]);
    BareColourVanishes();
  }

  lemma BareColourVanishes()
    ensures StripAnsi([Esc, '[', 'm']) == []
  {
    StripAnsiDropsColour([], []);
    assert [Esc, '['] + [] + ['m'] + [] == [Esc, '[', 'm'];
  }

  /** Both ends are double quotes, or both are single quotes. */
  predicate SymmetricallyQuoted(s: string) {
    (StartsWith(s, "\"") && EndsWith(s, "\"")) || (StartsWith(s, "'") && EndsWith(s, "'"))
  }

  /** `s` with `k` characters dropped from each end. */
  function Trimmed(s: string, k: nat): string
    requires 2 * k <= |s|
  {
    s[k..|s| - k]
  }

  /** The payload once the quote loop has finished: the loop drops one character from each end
      while the text is symmetrically quoted. */
  function Peel(s: string): (r: string)
    ensures |r| <= |s| && !SymmetricallyQuoted(r)
    decreases |s|
  {
    if SymmetricallyQuoted(s) then Peel(Slice(s, 1, -1)) else s
  }

  /** Peeling stops at text that is not symmetrically quoted, and what it leaves is the text
      with the same number of characters dropped from both ends (or nothing). */
  lemma {:induction false} PeelTrimsBothEnds(s: string)
    ensures !SymmetricallyQuoted(Peel(s))
    ensures |Peel(s)| <= |s|
    ensures Peel(s) == [] || exists k: nat :: 2 * k <= |s| && Peel(s) == Trimmed(s, k)
    decreases |s|
  {
    if SymmetricallyQuoted(s) {
      var inner := Slice(s, 1, -1);
      PeelTrimsBothEnds(inner);
      var r := Peel(inner);
      if r != [] {
        assert |s| >= 2 && inner == s[1..|s| - 1];
        var k: nat :| 2 * k <= |inner| && r == Trimmed(inner, k);
        TrimmedTwice(s, k);
      }
    } else {
      assert s == Trimmed(s, 0);
    }
  }

  lemma TrimmedTwice(s: string, k: nat)
    requires 2 * k + 2 <= |s|
    ensures Trimmed(s[1..|s| - 1], k) == Trimmed(s, k + 1)
  {
    var inner := s[1..|s| - 1];
    var a, b := inner[k..|inner| - k], s[k + 1..|s| - (k + 1)];
    assert |a| == |b|;
    forall j | 0 <= j < |a|
      ensures a[j] == b[j]
    {
      assert a[j] == inner[k + j] == s[k + 1 + j];
    }
  }

  /** The quote loop of the transcript parsers. */
  method PeelQuotes(s: string) returns (r: string)
    ensures r == Peel(s)
  {
    r := s;
    while (StartsWith(r, "\"") && EndsWith(r, "\"")) || (StartsWith(r, "'") && EndsWith(r, "'"))
      invariant Peel(r) == Peel(s)
      decreases |r|
    {
      r := Slice(r, 1, -1);
    }
  }

  /** Mixed nesting is peeled layer by layer. */
  lemma PeelNested()
    ensures Peel("'\"[1]\"'") == "[1]"
  {
    PeelOuterLayer();
    PeelInnerLayer();
    PeelBareList();
  }

  lemma PeelOuterLayer()
    ensures Peel("'\"[1]\"'") == Peel("\"[1]\"")
  {
    var a := "'\"[1]\"'";
    assert |a| == 7 && a[0] == '\'' && a[6] == '\'';
    assert a[..1] == [a[0]] && a[6..] == [a[6]];
    assert SymmetricallyQuoted(a);
    assert Slice(a, 1, -1) == a[1..6];
    assert a[1..6] == "\"[1]\"";
  }

  lemma PeelInnerLayer()
    ensures Peel("\"[1]\"") == Peel("[1]")
  {
    var b := "\"[1]\"";
    assert |b| == 5 && b[0] == '"' && b[4] == '"';
    assert b[..1] == [b[0]] && b[4..] == [b[4]];
    assert SymmetricallyQuoted(b);
    assert Slice(b, 1, -1) == b[1..4];
    assert b[1..4] == "[1]";
  }

  lemma PeelBareList()
    ensures Peel("[1]") == "[1]"
  {
    var c := "[1]";
    assert c[..1][0] == '[' && c[2..][0] == ']';
    assert !SymmetricallyQuoted(c);
  }

  /** A lone quote counts as quoted at both ends and peels to nothing. */
  lemma PeelLoneQuote()
    ensures Peel("\"") == ""
  {
    assert Slice("\"", 1, -1) == "";
  }

  /** Mismatched quotes are left alone. */
  lemma PeelMismatched()
    ensures Peel("\"[1]'") == "\"[1]'"
  {
    var t := "\"[1]'";
    assert t[..1][0] == '"' && t[4..][0] == '\'';
    assert !SymmetricallyQuoted(t);
  }

  /** `s.replace('\\"', '"')`, which never lengthens the text. */
  function Unescape(s: string): (r: string)
    ensures |r| <= |s|
  {
    Replace(s, "\\\"", "\"")
  }

  /** The signature parser tests the payload after unescaping, the others before; the outcome
      of the emptiness test is the same. */
  lemma UnescapeKeepsEmptiness(s: string)
    ensures Unescape(s) == "" <==> s == ""
  {
    ReplaceKeepsNonEmpty(s, "\\\"", "\"");
  }

  /** `json.loads`, and `json.loads` again when the first result is a string. */
  function DecodeTwice(decode: Decoder, s: string): (r: Option<Json>)
    ensures r.Some? ==> decode(s).Some?
    ensures r.Some? ==> r == decode(s) || (decode(s).value.JStr? && r == decode(decode(s).value.s))
  {
    match decode(s)
    case None => None
    case Some(JStr(t)) => decode(t)
    case Some(data) => Some(data)
  }

  /** The lines of the transcript: `stdout.strip().split('\n')`. */
  function TranscriptLines(stdout: string): seq<string> {
    Split(Strip(stdout), "\n")
  }

  const ResultMarker := "val res"
  const ValueMarker := "String = "

  /** A cleaned line that carries the query's result. */
  predicate IsMarker(clean: string) {
    Contains(clean, ResultMarker) && Contains(clean, ValueMarker)
  }

  /** The text after the first `String = ` marker, stripped. The cut is made at the marker's
      trailing space (offset 8 of 9), which the strip then removes. */
  function Payload(clean: string): string
    requires IsMarker(clean)
  {
    var i := FindFrom(clean, ValueMarker, 0);
    Strip(clean[i + 8..])
  }

  /** Cutting one place later, after the whole marker, gives the same payload. */
  lemma PayloadSkipsWholeMarker(clean: string)
    requires IsMarker(clean)
    ensures var i := FindFrom(clean, ValueMarker, 0);
      Payload(clean) == Strip(clean[i + 9..])
  {
    var i := FindFrom(clean, ValueMarker, 0);
    var t, u := clean[i + 8..], clean[i + 9..];
    assert Payload(clean) == Strip(t);
    assert Strip(t) == Strip(u) by {
      MarkerEndsInSpace(clean, i);
      assert t[1..] == u;
      LeadingSpaceStrip(t);
    }
  }

  lemma MarkerEndsInSpace(clean: string, i: int)
    requires OccursAt(clean, ValueMarker, i)
    ensures clean[i + 8] == ' '
  {
    assert clean[i..i + 9][8] == clean[i + 8];
  }

  lemma LeadingSpaceStrip(t: string)
    requires |t| > 0 && t[0] == ' '
    ensures Strip(t) == Strip(t[1..])
  {
    assert t == [' '] + t[1..];
    LStripDropsSpace(t[1..]);
  }

  /** The payload a transcript line carries, if it is a marker line once cleaned. */
  function LinePayload(line: string): Option<string> {
    var clean := StripAnsi(line);
    if IsMarker(clean) then Some(Payload(clean)) else None
  }

  /** The payload of the first marker line, before the quote loop. */
  function FirstMarkerPayload(lines: seq<string>): Option<string>
    decreases |lines|
  {
    if lines == [] then None
    else if LinePayload(lines[0]).Some? then LinePayload(lines[0])
    else FirstMarkerPayload(lines[1..])
  }

  /** The scan finds nothing exactly when no line is a marker line. */
  lemma {:induction false} FirstMarkerPayloadNone(lines: seq<string>)
    ensures FirstMarkerPayload(lines).None? <==> forall i :: 0 <= i < |lines| ==> LinePayload(lines[i]).None?
    decreases |lines|
  {
    if lines != [] && LinePayload(lines[0]).None? {
      var tail := lines[1..];
      FirstMarkerPayloadNone(tail);
      assert forall i :: 1 <= i < |lines| ==> tail[i - 1] == lines[i];
    }
  }

  /** What the scan finds is the payload of the first marker line. */
  lemma {:induction false} FirstMarkerPayloadIsFirst(lines: seq<string>)
    requires FirstMarkerPayload(lines).Some?
    ensures exists i :: 0 <= i < |lines| && LinePayload(lines[i]) == FirstMarkerPayload(lines)
                        && forall j :: 0 <= j < i ==> LinePayload(lines[j]).None?
    decreases |lines|
  {
    var found := FirstMarkerPayload(lines);
    if LinePayload(lines[0]).None? {
      var tail := lines[1..];
      assert FirstMarkerPayload(tail) == found;
      FirstMarkerPayloadIsFirst(tail);
      var i :| 0 <= i < |tail| && LinePayload(tail[i]) == found
               && forall j :: 0 <= j < i ==> LinePayload(tail[j]).None?;
      assert lines[i + 1] == tail[i];
      forall j | 0 <= j < i + 1
        ensures LinePayload(lines[j]).None?
      {
        if j > 0 {
          assert lines[j] == tail[j - 1];
        }
      }
      assert LinePayload(lines[i + 1]) == found;
    } else {
      assert LinePayload(lines[0]) == found;
    }
  }

  /** What the line scan leaves in `json_str`: `None` if no line is a marker line. */
  function ExtractedPayload(stdout: string): Option<string> {
    match FirstMarkerPayload(TranscriptLines(stdout))
    case None => None
    case Some(p) => Some(Peel(p))
  }

  /** The line scan shared by the three transcript parsers. */
  method ExtractPayload(stdout: string) returns (r: Option<string>)
    ensures r == ExtractedPayload(stdout)
  {
    var lines := TranscriptLines(stdout);
    var i := 0;
    while i < |lines|
      invariant 0 <= i <= |lines|
      invariant FirstMarkerPayload(lines) == FirstMarkerPayload(lines[i..])
    {
      var found := LinePayload(lines[i]);
      if found.Some? {
        var payload := PeelQuotes(found.value);
        return Some(payload);
      }
      assert lines[i..][1..] == lines[i + 1..];
      i := i + 1;
    }
    return None;
  }

  /** What `get_method_signature_from_line_numbers` returns once its query has run: the first
      element of the decoded list, or `None`. */
  function SignatureFrom(stdout: Option<string>, decode: Decoder): (r: Option<Json>)
    ensures r.Some? ==> stdout.Some? && ExtractedPayload(stdout.value).Some?
                        && ExtractedPayload(stdout.value).value != ""
  {
    if stdout.None? || stdout.value == "" then None
    else
      match ExtractedPayload(stdout.value)
      case None => None
      case Some(p) =>
        UnescapeKeepsEmptiness(p);
        var text := Unescape(p);
        if text == "" then None
        else
          match DecodeTwice(decode, text)
          case Some(JList(items)) => if |items| > 0 then Some(items[0]) else None
          case _ => None
  }

  /** A signature is found only if the transcript has a marker line with a non-empty payload,
      and it is the first element of what that payload decodes to. */
  lemma SignatureNeedsMarker(stdout: string, decode: Decoder)
    requires SignatureFrom(Some(stdout), decode).Some?
    ensures exists i :: 0 <= i < |TranscriptLines(stdout)| && LinePayload(TranscriptLines(stdout)[i]).Some?
    ensures ExtractedPayload(stdout).Some? && ExtractedPayload(stdout).value != ""
    ensures var data := DecodeTwice(decode, Unescape(ExtractedPayload(stdout).value));
      data.Some? && data.value.JList? && |data.value.items| > 0
      && SignatureFrom(Some(stdout), decode).value == data.value.items[0]
  {
    var p := ExtractedPayload(stdout).value;
    UnescapeKeepsEmptiness(p);
    FirstMarkerPayloadNone(TranscriptLines(stdout));
  }

  /** The text of line `ln` of the file, stripped, or `""` when that line cannot be read or
      `ln` is not an integer. */
  function LineText(fs: FileSystem, path: string, ln: Json): (r: string)
    ensures Stripped(r)
    ensures AsInteger(ln).None? ==> r == ""
  {
    match AsInteger(ln)
    case None => ""
    case Some(n) =>
      match RetrieveCodeByLineNumber(fs, path, LineRange(n, n))
      case NoCode => ""
      case Code(text) => if text == "" then "" else Strip(text)
  }

  /** One callee: the called method's name, its line, and the line's text. */
  datatype Callee = Callee(name: Json, line: Json, text: string)

  /** A decoded entry yields a callee when it is an object with truthy `name` and `lineNumber`. */
  function CalleeOf(fs: FileSystem, path: string, entry: Json): (r: Option<Callee>)
    ensures r.Some? <==> (entry.JObject?
                            && Get(entry.entries, "name").Some? && Truthy(Get(entry.entries, "name").value)
                            && Get(entry.entries, "lineNumber").Some?
                            && Truthy(Get(entry.entries, "lineNumber").value))
    ensures r.Some? ==> (r.value.name == Get(entry.entries, "name").value
                           && r.value.line == Get(entry.entries, "lineNumber").value
                           && r.value.text == LineText(fs, path, r.value.line))
  {
    if !entry.JObject? then None
    else
      var name := Get(entry.entries, "name");
      var line := Get(entry.entries, "lineNumber");
      if name.Some? && Truthy(name.value) && line.Some? && Truthy(line.value) then
        Some(Callee(name.value, line.value, LineText(fs, path, line.value)))
      else None
  }

  /** The callees of a decoded list: the qualifying entries, in order. */
  function Callees(fs: FileSystem, path: string, items: seq<Json>): (r: seq<Callee>)
    ensures |r| <= |items|
    decreases |items|
  {
    if items == [] then []
    else
      var init := items[..|items| - 1];
      var last := items[|items| - 1];
      Callees(fs, path, init) + CalleeList(fs, path, last)
  }

  /** The callees one entry contributes: none or one. */
  function CalleeList(fs: FileSystem, path: string, entry: Json): seq<Callee> {
    match CalleeOf(fs, path, entry)
    case None => []
    case Some(c) => [c]
  }

  /** Only qualifying entries become callees: each has a truthy name and a truthy line. */
  lemma {:induction false} CalleesAreQualified(fs: FileSystem, path: string, items: seq<Json>)
    ensures |Callees(fs, path, items)| <= |items|
    ensures forall c :: c in Callees(fs, path, items) ==> Truthy(c.name) && Truthy(c.line)
    decreases |items|
  {
    if items != [] {
      CalleesAreQualified(fs, path, items[..|items| - 1]);
    }
  }

  /** When every entry qualifies, there is one callee per entry, in order. */
  lemma CalleesKeepEveryQualifyingEntry(fs: FileSystem, path: string, items: seq<Json>)
    requires forall i :: 0 <= i < |items| ==> CalleeOf(fs, path, items[i]).Some?
    ensures |Callees(fs, path, items)| == |items|
    ensures forall i :: 0 <= i < |items| ==> Callees(fs, path, items)[i] == CalleeOf(fs, path, items[i]).value
  {
    QualifyingCalleesLength(fs, path, items);
    forall i | 0 <= i < |items|
      ensures Callees(fs, path, items)[i] == CalleeOf(fs, path, items[i]).value
    {
      QualifyingCalleeAt(fs, path, items, i);
    }
  }

  /** When every entry qualifies, there is one callee per entry. */
  lemma {:induction false} QualifyingCalleesLength(fs: FileSystem, path: string, items: seq<Json>)
    requires forall i :: 0 <= i < |items| ==> CalleeOf(fs, path, items[i]).Some?
    ensures |Callees(fs, path, items)| == |items|
    decreases |items|
  {
    if items != [] {
      var init := items[..|items| - 1];
      assert forall i :: 0 <= i < |init| ==> init[i] == items[i];
      QualifyingCalleesLength(fs, path, init);
      assert CalleeOf(fs, path, items[|items| - 1]).Some?;
    }
  }

  /** When every entry qualifies, callee `i` is entry `i`'s. */
  lemma QualifyingCalleeAt(fs: FileSystem, path: string, items: seq<Json>, i: nat)
    requires forall k :: 0 <= k < |items| ==> CalleeOf(fs, path, items[k]).Some?
    requires i < |items|
    ensures |Callees(fs, path, items)| == |items|
    ensures Callees(fs, path, items)[i] == CalleeOf(fs, path, items[i]).value
  {
    var pre, x, rest := items[..i], items[i], items[i + 1..];
    var c := CalleeOf(fs, path, x).value;
    assert Callees(fs, path, items) == Callees(fs, path, pre) + [c] + Callees(fs, path, rest) by {
      SplitAround(items, i);
      CalleesOfConcat(fs, path, pre + [x], rest);
      CalleesOfSnoc(fs, path, pre, x);
      assert CalleeList(fs, path, x) == [c];
    }
    assert |Callees(fs, path, pre)| == i by {
      assert forall k :: 0 <= k < |pre| ==> pre[k] == items[k];
      QualifyingCalleesLength(fs, path, pre);
    }
    QualifyingCalleesLength(fs, path, items);
    ElementAfter(Callees(fs, path, pre), c, Callees(fs, path, rest));
  }

  /** The callees of two lists back to back are the callees of each, back to back. */
  lemma {:induction false} CalleesOfConcat(fs: FileSystem, path: string, a: seq<Json>, b: seq<Json>)
    ensures Callees(fs, path, a + b) == Callees(fs, path, a) + Callees(fs, path, b)
    decreases |b|
  {
    if b == [] {
      assert a + b == a;
    } else {
      var init, last := b[..|b| - 1], b[|b| - 1];
      CalleesOfConcat(fs, path, a, init);
      SplitLast(a, b);
      CalleesOfSnoc(fs, path, a + init, last);
      CalleesOfSnoc(fs, path, init, last);
      SeqAssociates(Callees(fs, path, a), Callees(fs, path, init), CalleeList(fs, path, last));
    }
  }

  /** One more entry at the end adds that entry's callees at the end. */
  lemma CalleesOfSnoc(fs: FileSystem, path: string, s: seq<Json>, x: Json)
    ensures Callees(fs, path, s + [x]) == Callees(fs, path, s) + CalleeList(fs, path, x)
  {
    DropAppended(s, x);
  }

  /** One caller: the line of a call and that line's text. */
  datatype Caller = Caller(line: Json, text: string)

  /** The callers recorded in one decoded object: one per truthy value, in key order. */
  function ObjectCallers(fs: FileSystem, path: string, entries: seq<(string, Json)>): (r: seq<Caller>)
    ensures |r| <= |entries|
    decreases |entries|
  {
    if entries == [] then []
    else
      var v := entries[|entries| - 1].1;
      ObjectCallers(fs, path, entries[..|entries| - 1]) + (if Truthy(v) then [Caller(v, LineText(fs, path, v))] else [])
  }

  /** Each caller of an object is a truthy value of that object with the text of its line. */
  lemma {:induction false} ObjectCallersAreTruthyLines(fs: FileSystem, path: string, entries: seq<(string, Json)>)
    ensures |ObjectCallers(fs, path, entries)| <= |entries|
    ensures forall c :: c in ObjectCallers(fs, path, entries) ==>
      Truthy(c.line) && c.text == LineText(fs, path, c.line)
      && exists i :: 0 <= i < |entries| && entries[i].1 == c.line
    decreases |entries|
  {
    if entries != [] {
      var init := entries[..|entries| - 1];
      ObjectCallersAreTruthyLines(fs, path, init);
      assert forall i :: 0 <= i < |init| ==> init[i] == entries[i];
    }
  }

  /** The callers of a decoded list: the callers of each object in it, in order. */
  function Callers(fs: FileSystem, path: string, items: seq<Json>): (r: seq<Caller>)
    ensures (forall i :: 0 <= i < |items| ==> !items[i].JObject?) ==> r == []
    decreases |items|
  {
    if items == [] then []
    else
      var last := items[|items| - 1];
      Callers(fs, path, items[..|items| - 1])
        + (if last.JObject? then ObjectCallers(fs, path, last.entries) else [])
  }

  /** Every caller of a list has a truthy line. */
  lemma {:induction false} CallersAreTruthy(fs: FileSystem, path: string, items: seq<Json>)
    ensures forall c :: c in Callers(fs, path, items) ==> Truthy(c.line)
    decreases |items|
  {
    if items != [] {
      var last := items[|items| - 1];
      CallersAreTruthy(fs, path, items[..|items| - 1]);
      if last.JObject? {
        ObjectCallersAreTruthyLines(fs, path, last.entries);
      }
    }
  }

  /** An object whose values are all truthy gives one caller per entry, in order. */
  lemma {:induction false} ObjectCallersKeepTruthy(fs: FileSystem, path: string, entries: seq<(string, Json)>)
    requires forall i :: 0 <= i < |entries| ==> Truthy(entries[i].1)
    ensures |ObjectCallers(fs, path, entries)| == |entries|
    ensures forall i :: 0 <= i < |entries| ==>
      ObjectCallers(fs, path, entries)[i] == Caller(entries[i].1, LineText(fs, path, entries[i].1))
    decreases |entries|
  {
    if entries != [] {
      var init := entries[..|entries| - 1];
      var v := entries[|entries| - 1].1;
      assert forall i :: 0 <= i < |init| ==> init[i] == entries[i];
      ObjectCallersKeepTruthy(fs, path, init);
      var r0 := ObjectCallers(fs, path, init);
      var c := Caller(v, LineText(fs, path, v));
      assert Truthy(v);
      var r := r0 + [c];
      SplitLast(init, entries);
      ObjectCallersOfSnoc(fs, path, init, entries[|entries| - 1]);
      forall i | 0 <= i < |entries|
        ensures r[i] == Caller(entries[i].1, LineText(fs, path, entries[i].1))
      {
        if i < |init| {
          assert r[i] == r0[i];
          assert init[i] == entries[i];
        } else {
          assert r[i] == c;
        }
      }
    }
  }

  /** One more entry at the end adds its caller at the end when its value is truthy. */
  lemma ObjectCallersOfSnoc(fs: FileSystem, path: string, s: seq<(string, Json)>, e: (string, Json))
    ensures ObjectCallers(fs, path, s + [e])
      == ObjectCallers(fs, path, s) + (if Truthy(e.1) then [Caller(e.1, LineText(fs, path, e.1))] else [])
  {
    DropAppended(s, e);
  }

  /** A single entry gives one caller exactly when its value is truthy. */
  lemma ObjectCallersOfOne(fs: FileSystem, path: string, key: string, v: Json)
    ensures ObjectCallers(fs, path, [(key, v)])
      == (if Truthy(v) then [Caller(v, LineText(fs, path, v))] else [])
  {
    ObjectCallersOfSnoc(fs, path, [], (key, v));
    assert [] + [(key, v)] == [(key, v)];
  }

  /** The callers of two entry lists back to back are the callers of each, back to back. */
  lemma {:induction false} ObjectCallersOfConcat(fs: FileSystem, path: string, a: seq<(string, Json)>, b: seq<(string, Json)>)
    ensures ObjectCallers(fs, path, a + b) == ObjectCallers(fs, path, a) + ObjectCallers(fs, path, b)
    decreases |b|
  {
    if b == [] {
      assert a + b == a;
    } else {
      var init, last := b[..|b| - 1], b[|b| - 1];
      ObjectCallersOfConcat(fs, path, a, init);
      SplitLast(a, b);
      ObjectCallersOfSnoc(fs, path, a + init, last);
      ObjectCallersOfSnoc(fs, path, init, last);
      SeqAssociates(ObjectCallers(fs, path, a), ObjectCallers(fs, path, init),
        if Truthy(last.1) then [Caller(last.1, LineText(fs, path, last.1))] else []);
    }
  }

  /** An object mixing falsy and truthy values keeps exactly the truthy ones. */
  lemma MixedObjectCallers(fs: FileSystem, path: string)
    ensures ObjectCallers(fs, path, [("a", JInt(0)), ("b", JInt(5))])
      == [Caller(JInt(5), LineText(fs, path, JInt(5)))]
  {
    ObjectCallersOfConcat(fs, path, [("a", JInt(0))], [("b", JInt(5))]);
    ObjectCallersOfOne(fs, path, "a", JInt(0));
    ObjectCallersOfOne(fs, path, "b", JInt(5));
    assert [("a", JInt(0))] + [("b", JInt(5))] == [("a", JInt(0)), ("b", JInt(5))];
  }

  /** One more item at the end adds that item's callers at the end. */
  lemma CallersOfSnoc(fs: FileSystem, path: string, s: seq<Json>, x: Json)
    ensures Callers(fs, path, s + [x])
      == Callers(fs, path, s) + (if x.JObject? then ObjectCallers(fs, path, x.entries) else [])
  {
    DropAppended(s, x);
  }

  /** The callers of two lists back to back are the callers of each, back to back. */
  lemma {:induction false} CallersOfConcat(fs: FileSystem, path: string, a: seq<Json>, b: seq<Json>)
    ensures Callers(fs, path, a + b) == Callers(fs, path, a) + Callers(fs, path, b)
    decreases |b|
  {
    if b == [] {
      assert a + b == a;
    } else {
      var init, last := b[..|b| - 1], b[|b| - 1];
      CallersOfConcat(fs, path, a, init);
      SplitLast(a, b);
      CallersOfSnoc(fs, path, a + init, last);
      CallersOfSnoc(fs, path, init, last);
      SeqAssociates(Callers(fs, path, a), Callers(fs, path, init),
        if last.JObject? then ObjectCallers(fs, path, last.entries) else []);
    }
  }

  /** The loop that builds `callees`. */
  method CollectCallees(fs: FileSystem, path: string, items: seq<Json>) returns (r: seq<Callee>)
    ensures r == Callees(fs, path, items)
  {
    r := [];
    for i := 0 to |items|
      invariant r == Callees(fs, path, items[..i])
    {
      assert items[..i + 1][..i] == items[..i];
      r := AppendCallee(fs, path, items[i], r);
    }
    assert items[..|items|] == items;
  }

  /** The body of the loop over `callees`: one callee when both fields are truthy. */
  method AppendCallee(fs: FileSystem, path: string, callee: Json, before: seq<Callee>) returns (r: seq<Callee>)
    ensures r == before + CalleeList(fs, path, callee)
  {
    r := before;
    if callee.JObject? {
      var name := Get(callee.entries, "name");
      var line := Get(callee.entries, "lineNumber");
      if name.Some? && Truthy(name.value) && line.Some? && Truthy(line.value) {
        var text := LineText(fs, path, line.value);
        assert CalleeList(fs, path, callee) == [Callee(name.value, line.value, text)];
        r := r + [Callee(name.value, line.value, text)];
      } else {
        assert CalleeList(fs, path, callee) == [];
      }
    } else {
      assert CalleeList(fs, path, callee) == [];
    }
  }

  /** The nested loops that build `callers`. */
  method CollectCallers(fs: FileSystem, path: string, items: seq<Json>) returns (r: seq<Caller>)
    ensures r == Callers(fs, path, items)
  {
    r := [];
    for i := 0 to |items|
      invariant r == Callers(fs, path, items[..i])
    {
      assert items[..i + 1][..i] == items[..i];
      if items[i].JObject? {
        r := AppendObjectCallers(fs, path, items[i].entries, r);
      }
    }
    assert items[..|items|] == items;
  }

  /** The inner loop over one object's entries: a caller for each truthy value. */
  method AppendObjectCallers(fs: FileSystem, path: string, entries: seq<(string, Json)>, before: seq<Caller>)
    returns (r: seq<Caller>)
    ensures r == before + ObjectCallers(fs, path, entries)
  {
    r := before;
    for j := 0 to |entries|
      invariant r == before + ObjectCallers(fs, path, entries[..j])
    {
      assert entries[..j + 1][..j] == entries[..j];
      var v := entries[j].1;
      if Truthy(v) {
        r := r + [Caller(v, LineText(fs, path, v))];
      }
    }
    assert entries[..|entries|] == entries;
  }

  /** What `get_callees_in_line_range` returns once its query has run. */
  function CalleesFrom(stdout: Option<string>, decode: Decoder, fs: FileSystem, path: string): seq<Callee> {
    if stdout.None? || stdout.value == "" then []
    else
      match ExtractedPayload(stdout.value)
      case None => []
      case Some(p) =>
        if p == "" then []
        else
          match DecodeTwice(decode, Unescape(p))
          case Some(JList(items)) => Callees(fs, path, items)
          case _ => []
  }

  /** What `get_function_callers` returns once its query has run. */
  function CallersFrom(stdout: Option<string>, decode: Decoder, fs: FileSystem, path: string): seq<Caller> {
    if stdout.None? || stdout.value == "" then []
    else
      match ExtractedPayload(stdout.value)
      case None => []
      case Some(p) =>
        if p == "" then []
        else
          match DecodeTwice(decode, Unescape(p))
          case Some(JList(items)) => Callers(fs, path, items)
          case _ => []
  }

  /** The parsing half of `get_method_signature_from_line_numbers`. */
  method ParseSignature(stdout: Option<string>, decode: Decoder) returns (r: Option<Json>)
    ensures r == SignatureFrom(stdout, decode)
  {
    if stdout.None? || stdout.value == "" {
      return None;
    }
    var payload := ExtractPayload(stdout.value);
    if payload.None? {
      return None;
    }
    var text := Unescape(payload.value);
    if text == "" {
      return None;
    }
    var data := DecodeTwice(decode, text);
    if data.Some? && data.value.JList? && |data.value.items| > 0 {
      return Some(data.value.items[0]);
    }
    return None;
  }

  /** The parsing half of `get_callees_in_line_range`. */
  method ParseCallees(stdout: Option<string>, decode: Decoder, fs: FileSystem, path: string)
    returns (r: seq<Callee>)
    ensures r == CalleesFrom(stdout, decode, fs, path)
  {
    if stdout.None? || stdout.value == "" {
      return [];
    }
    var payload := ExtractPayload(stdout.value);
    if payload.None? || payload.value == "" {
      return [];
    }
    var data := DecodeTwice(decode, Unescape(payload.value));
    if data.None? || !data.value.JList? {
      return [];
    }
    assert CalleesFrom(stdout, decode, fs, path) == Callees(fs, path, data.value.items);
    r := CollectCallees(fs, path, data.value.items);
  }

  /** The parsing half of `get_function_callers`. */
  method ParseCallers(stdout: Option<string>, decode: Decoder, fs: FileSystem, path: string)
    returns (r: seq<Caller>)
    ensures r == CallersFrom(stdout, decode, fs, path)
  {
    if stdout.None? || stdout.value == "" {
      return [];
    }
    var payload := ExtractPayload(stdout.value);
    if payload.None? || payload.value == "" {
      return [];
    }
    var data := DecodeTwice(decode, Unescape(payload.value));
    if data.None? || !data.value.JList? {
      return [];
    }
    assert CallersFrom(stdout, decode, fs, path) == Callers(fs, path, data.value.items);
    r := CollectCallers(fs, path, data.value.items);
  }

  /** A transcript without a marker line, or one whose payload does not decode to a list, gives
      no callees and no callers. */
  lemma NoListNoResults(stdout: string, decode: Decoder, fs: FileSystem, path: string)
    requires forall i :: 0 <= i < |TranscriptLines(stdout)| ==> LinePayload(TranscriptLines(stdout)[i]).None?
    ensures CalleesFrom(Some(stdout), decode, fs, path) == []
    ensures CallersFrom(Some(stdout), decode, fs, path) == []
    ensures SignatureFrom(Some(stdout), decode) == None
  {
    FirstMarkerPayloadNone(TranscriptLines(stdout));
  }

  /** `str()` of the signature as the callers query splices it: `None` when none was found. */
  function SignatureText(signature: Option<Json>): string {
    match signature
    case None => "None"
    case Some(j) => Str(j)
  }

  // The fixed parts of the three queries, as the program spells them.
  const MethodsFrom := "cpg.method.filter(m => m.lineNumber.isDefined && m.lineNumber.get >= "
  const MethodsTo := " && m.lineNumber.get <= "
  const FullNames := ".map(m => (m.fullName)).toJson"
  const NamedCalls := ".call.filter(call => call.label == \"CALL\" && call.name.matches(\"^[a-zA-Z][a-zA-Z0-9]*$\")).toJson"
  const CallsTo := "cpg.call.filter(call => call.methodFullName == \""
  const CallSites := "\").map(call => (call.methodFullName, call.lineNumber)).toJson"

  /** The methods whose first line lies within the bug location. */
  function LineFilter(loc: LineRange): string {
    MethodsFrom + IntToString(loc.start) + MethodsTo + IntToString(loc.end) + ")"
  }

  function SignatureQuery(loc: LineRange): string {
    LineFilter(loc) + FullNames
  }

  function CalleesQuery(loc: LineRange): string {
    LineFilter(loc) + NamedCalls
  }

  function CallersQuery(signature: Option<Json>): string {
    CallsTo + SignatureText(signature) + CallSites
  }

  /** How a Joern process ended: its exit status and output, or the error that kept it from
      starting. */
  datatype ProcessResult = Exited(returnCode: int, stdout: string, stderr: string) | SpawnFailed(message: string)

  /** Running the Joern executable in its directory with the given text on standard input. */
  type Engine = string -> ProcessResult

  /** The `(stdout, stderr)` pair of `_run_joern_query`: no stdout unless the process exited
      with status 0. */
  function QueryOutcome(p: ProcessResult): (r: (Option<string>, string))
    ensures r.0.Some? <==> p.Exited? && p.returnCode == 0
    ensures r.0.Some? ==> r.0.value == p.stdout
  {
    match p
    case Exited(code, out, err) => if code != 0 then (None, err) else (Some(out), err)
    case SpawnFailed(message) => (None, message)
  }

  /** Where a project's code property graph is stored under the Joern directory. */
  function CpgPath(directory: string, name: string): (r: string)
    ensures StartsWith(r, directory) && EndsWith(r, GraphFile)
  {
    directory + Workspace + name + GraphFile
  }

  const Workspace := "/workspace/"
  const GraphFile := "/cpg.bin"
  const ImportCpg := "importCpg(\""

  /** The standard input of a query run: import the graph, then the query, one per line. */
  function Commands(directory: string, name: string, query: string): (r: string)
    ensures StartsWith(r, ImportCpg + CpgPath(directory, name))
    ensures EndsWith(r, "\n" + query + "\n")
  {
    ImportCpg + CpgPath(directory, name) + "\")" + "\n" + query + "\n"
  }

  /** Joern receives exactly two commands when neither the graph path nor the query holds a
      line break. */
  lemma CommandsAreTwoLines(directory: string, name: string, query: string)
    requires '\n' !in CpgPath(directory, name) && '\n' !in query
    ensures Split(Commands(directory, name, query), "\n")
      == [ImportCpg + CpgPath(directory, name) + "\")", query, ""]
  {
    var load := ImportCpg + CpgPath(directory, name) + "\")";
    assert '\n' !in load;
    assert Commands(directory, name, query) == load + "\n" + (query + "\n" + "");
    SplitAfterFirst(load, '\n', query + "\n" + "");
    SplitAfterFirst(query, '\n', "");
    SplitWithoutSeparator("", '\n');
  }

  /** The callers a session on project `name` reports for a bug location: the signature query
      first, then the call sites of that signature. */
  function SessionCallers(directory: string, name: string, path: string, loc: LineRange, engine: Engine,
                          decode: Decoder, fs: FileSystem): seq<Caller>
  {
    var signature := SignatureFrom(QueryOutcome(engine(Commands(directory, name, SignatureQuery(loc)))).0, decode);
    CallersFrom(QueryOutcome(engine(Commands(directory, name, CallersQuery(signature)))).0, decode, fs, path)
  }

  /** The callees a session on project `name` reports inside a bug location. */
  function SessionCallees(directory: string, name: string, path: string, loc: LineRange, engine: Engine,
                          decode: Decoder, fs: FileSystem): seq<Callee>
  {
    CalleesFrom(QueryOutcome(engine(Commands(directory, name, CalleesQuery(loc)))).0, decode, fs, path)
  }

  class JoernSession {
    const javaFilePath: string
    const joernExecutable: string
    const joernDirectory: string
    var projectName: Option<string>

    /** A new session has no project loaded. */
    constructor (javaFilePath: string, joernExecutable: string, joernDirectory: string)
      ensures this.javaFilePath == javaFilePath && this.joernExecutable == joernExecutable
      ensures this.joernDirectory == joernDirectory
      ensures projectName == None && !Loaded()
    {
      this.javaFilePath := javaFilePath;
      this.joernExecutable := joernExecutable;
      this.joernDirectory := joernDirectory;
      projectName := None;
    }

    /** `self.project_name` is truthy: set, and not the empty string. */
    predicate Loaded()
      reads this
    {
      projectName.Some? && projectName.value != ""
    }

    /** `load_cpg`: records the project exactly when its graph file exists. */
    method LoadCpg(name: string, existing: set<string>) returns (ok: bool)
      modifies this
      ensures ok <==> CpgPath(joernDirectory, name) in existing
      ensures ok ==> projectName == Some(name) && (Loaded() <==> name != "")
      ensures !ok ==> projectName == old(projectName)
    {
      var cpgPath := joernDirectory + Workspace + name + GraphFile;
      if cpgPath !in existing {
        return false;
      }
      projectName := Some(name);
      return true;
    }

    /** `_run_joern_query`. */
    method RunJoernQuery(query: string, engine: Engine) returns (r: Result<(Option<string>, string)>)
      ensures !Loaded() ==> r == Raise(RuntimeError)
      ensures Loaded() ==> r == Ok(QueryOutcome(engine(Commands(joernDirectory, projectName.value, query))))
    {
      if !Loaded() {
        return Raise(RuntimeError);
      }
      var cpgPath := joernDirectory + Workspace + projectName.value + GraphFile;
      var loadCommand := ImportCpg + cpgPath + "\")";
      var commands := loadCommand + "\n" + query + "\n";
      var process := engine(commands);
      if process.SpawnFailed? {
        return Ok((None, process.message));
      }
      if process.returnCode != 0 {
        return Ok((None, process.stderr));
      }
      return Ok((Some(process.stdout), process.stderr));
    }

    /** `get_method_signature_from_line_numbers`. */
    method GetMethodSignatureFromLineNumbers(loc: LineRange, engine: Engine, decode: Decoder)
      returns (r: Result<Option<Json>>)
      ensures !Loaded() ==> r == Raise(RuntimeError)
      ensures Loaded() ==> r == Ok(SignatureFrom(QueryOutcome(engine(Commands(joernDirectory, projectName.value, SignatureQuery(loc)))).0, decode))
    {
      if !Loaded() {
        return Raise(RuntimeError);
      }
      var run := RunJoernQuery(SignatureQuery(loc), engine);
      var signature := ParseSignature(run.value.0, decode);
      return Ok(signature);
    }

    /** `get_callees_in_line_range`. */
    method GetCalleesInLineRange(loc: LineRange, engine: Engine, decode: Decoder, fs: FileSystem)
      returns (r: Result<seq<Callee>>)
      ensures !Loaded() ==> r == Raise(RuntimeError)
      ensures Loaded() ==> r == Ok(SessionCallees(joernDirectory, projectName.value, javaFilePath, loc, engine, decode, fs))
    {
      if !Loaded() {
        return Raise(RuntimeError);
      }
      var run := RunJoernQuery(CalleesQuery(loc), engine);
      var callees := ParseCallees(run.value.0, decode, fs, javaFilePath);
      return Ok(callees);
    }

    /** `get_function_callers`: looks up the signature first, then queries its call sites. */
    method GetFunctionCallers(loc: LineRange, engine: Engine, decode: Decoder, fs: FileSystem)
      returns (r: Result<seq<Caller>>)
      ensures !Loaded() ==> r == Raise(RuntimeError)
      ensures Loaded() ==> r == Ok(SessionCallers(joernDirectory, projectName.value, javaFilePath, loc, engine, decode, fs))
    {
      if !Loaded() {
        return Raise(RuntimeError);
      }
      var signature := GetMethodSignatureFromLineNumbers(loc, engine, decode);
      var run := RunJoernQuery(CallersQuery(signature.value), engine);
      var callers := ParseCallers(run.value.0, decode, fs, javaFilePath);
      return Ok(callers);
    }
  }
}
