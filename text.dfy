/** The Python string built-ins the modelled code relies on: whitespace stripping, prefix and
    suffix tests, `find`, `in`, `split`, `join`, `replace`, slicing with clamped and negative
    indices, and ASCII `lower`. */
module Text {

  /** Python's `str.isspace()` for one character. */
  predicate IsSpace(c: char) {
    c == ' ' || ('\U{9}' <= c <= '\U{d}') || ('\U{1c}' <= c <= '\U{1f}')
    || c == '\U{85}' || c == '\U{a0}' || c == '\U{1680}' || ('\U{2000}' <= c <= '\U{200a}')
    || c == '\U{2028}' || c == '\U{2029}' || c == '\U{202f}' || c == '\U{205f}' || c == '\U{3000}'
  }

  /** `s.lstrip()`: drops leading whitespace and nothing else. */
  function LStrip(s: string): (r: string)
    ensures |r| <= |s| && r == s[|s| - |r|..]
    ensures r == [] || !IsSpace(r[0])
    ensures forall k :: 0 <= k < |s| - |r| ==> IsSpace(s[k])
  {
    if |s| > 0 && IsSpace(s[0]) then
      var r := LStrip(s[1..]);
      assert s[1..][|s| - 1 - |r|..] == s[|s| - |r|..];
      assert forall k :: 1 <= k < |s| ==> s[1..][k - 1] == s[k];
      r
    else s
  }

  /** `s.rstrip()`: drops trailing whitespace and nothing else. */
  function RStrip(s: string): (r: string)
    ensures |r| <= |s| && r == s[..|r|]
    ensures r == [] || !IsSpace(r[|r| - 1])
    ensures forall k :: |r| <= k < |s| ==> IsSpace(s[k])
  {
    if |s| > 0 && IsSpace(s[|s| - 1]) then
      var r := RStrip(s[..|s| - 1]);
      assert s[..|s| - 1][..|r|] == s[..|r|];
      assert forall k :: |r| <= k < |s| - 1 ==> s[..|s| - 1][k] == s[k];
      r
    else s
  }

  lemma LStripDropsSpace(s: string)
    ensures LStrip([' '] + s) == LStrip(s)
  {
    assert ([' '] + s)[1..] == s;
  }

  /** `s.strip()`. */
  function Strip(s: string): (r: string)
    ensures |r| <= |s|
    ensures r == [] || (!IsSpace(r[0]) && !IsSpace(r[|r| - 1]))
  {
    RStrip(LStrip(s))
  }

  /** Text without whitespace at either end, as `strip()` leaves it. */
  predicate Stripped(s: string) {
    s == [] || (!IsSpace(s[0]) && !IsSpace(s[|s| - 1]))
  }

  /** Stripping adds no character: one absent from the text is absent from its `strip()`. */
  lemma StripKeepsAbsent(s: string, c: char)
    requires c !in s
    ensures c !in Strip(s)
  {
    var l := LStrip(s);
    var r := Strip(s);
    forall k | 0 <= k < |r|
      ensures r[k] != c
    {
      assert r[k] == l[k] == s[|s| - |l| + k];
    }
  }

  /** A string that neither starts nor ends with whitespace is its own `strip()`. */
  lemma StripUnchanged(s: string)
    requires s == [] || (!IsSpace(s[0]) && !IsSpace(s[|s| - 1]))
    ensures Strip(s) == s
  {
  }

  predicate StartsWith(s: string, prefix: string) {
    |prefix| <= |s| && s[..|prefix|] == prefix
  }

  predicate EndsWith(s: string, suffix: string) {
    |suffix| <= |s| && s[|s| - |suffix|..] == suffix
  }

  /** True when `sub` occurs in `s` at index `k`. */
  predicate OccursAt(s: string, sub: string, k: int) {
    0 <= k && k + |sub| <= |s| && s[k..k + |sub|] == sub
  }

  /** `s.find(sub, start)`: the least index at or after `start` where `sub` occurs, or -1. */
  function FindFrom(s: string, sub: string, start: nat): (r: int)
    ensures r == -1 || (start <= r && OccursAt(s, sub, r))
    ensures forall k :: start <= k && (r == -1 || k < r) ==> !OccursAt(s, sub, k)
    decreases |s| - start
  {
    if start + |sub| > |s| then -1
    else if s[start..start + |sub|] == sub then start
    else FindFrom(s, sub, start + 1)
  }

  /** `sub in s`. */
  predicate Contains(s: string, sub: string) {
    FindFrom(s, sub, 0) != -1
  }

  lemma ContainsIff(s: string, sub: string)
    ensures Contains(s, sub) <==> exists k :: OccursAt(s, sub, k)
  {
    if exists k :: OccursAt(s, sub, k) {
      var k :| OccursAt(s, sub, k);
      assert 0 <= k;
    }
  }

  /** Text that is spliced into a longer text is contained in it. */
  lemma ContainsMiddle(a: string, sub: string, b: string)
    ensures Contains(a + sub + b, sub)
  {
    var s := a + sub + b;
    assert s[|a|..|a| + |sub|] == sub;
    assert OccursAt(s, sub, |a|);
    ContainsIff(s, sub);
  }

  /** `s.split(sep)` for a non-empty separator. */
  function Split(s: string, sep: string): (parts: seq<string>)
    requires |sep| > 0
    ensures |parts| >= 1
    decreases |s|
  {
    var i := FindFrom(s, sep, 0);
    if i == -1 then [s] else [s[..i]] + Split(s[i + |sep|..], sep)
  }

  /** A string without the separator character splits into itself alone. */
  lemma SplitWithoutSeparator(s: string, c: char)
    requires c !in s
    ensures Split(s, [c]) == [s]
  {
    forall k | 0 <= k < |s|
      ensures !OccursAt(s, [c], k)
    {
      assert s[k] != c;
    }
  }

  /** No piece of a split at a character holds that character. */
  lemma {:induction false} SplitPiecesLackSeparator(s: string, c: char)
    ensures forall i :: 0 <= i < |Split(s, [c])| ==> c !in Split(s, [c])[i]
    decreases |s|
  {
    var i := FindFrom(s, [c], 0);
    if i == -1 {
      forall k | 0 <= k < |s|
        ensures s[k] != c
      {
        assert !OccursAt(s, [c], k);
        assert s[k..k + 1] == [s[k]];
      }
      assert Split(s, [c]) == [s];
    } else {
      var rest := s[i + 1..];
      SplitPiecesLackSeparator(rest, c);
      forall k | 0 <= k < i
        ensures s[..i][k] != c
      {
        assert !OccursAt(s, [c], k);
        assert s[k..k + 1] == [s[k]];
      }
      assert Split(s, [c]) == [s[..i]] + Split(rest, [c]);
    }
  }

  /** Splitting at a separator character that first occurs right after `a`. */
  lemma SplitAfterFirst(a: string, c: char, rest: string)
    requires c !in a
    ensures Split(a + [c] + rest, [c]) == [a] + Split(rest, [c])
  {
    var s := a + [c] + rest;
    assert OccursAt(s, [c], |a|);
    forall k | 0 <= k < |a|
      ensures !OccursAt(s, [c], k)
    {
      assert s[k] == a[k];
    }
    var i := FindFrom(s, [c], 0);
    assert i == |a|;
    assert s[..i] == a;
    assert s[i + 1..] == rest;
  }

  /** The lines `ls`, each followed by a line break. */
  function Terminated(ls: seq<string>): string
    decreases |ls|
  {
    if ls == [] then "" else ls[0] + "\n" + Terminated(ls[1..])
  }

  lemma {:induction false} TerminatedAppend(ls: seq<string>, x: string)
    ensures Terminated(ls + [x]) == Terminated(ls) + x + "\n"
    decreases |ls|
  {
    if ls == [] {
      assert ls + [x] == [x];
      assert [x][1..] == [];
    } else {
      assert (ls + [x])[1..] == ls[1..] + [x];
      TerminatedAppend(ls[1..], x);
    }
  }

  /** Splitting terminated lines at line breaks gives the lines back. */
  lemma {:induction false} SplitTerminated(ls: seq<string>, rest: string)
    requires forall i :: 0 <= i < |ls| ==> '\n' !in ls[i]
    ensures Split(Terminated(ls) + rest, "\n") == ls + Split(rest, "\n")
    decreases |ls|
  {
    if ls == [] {
      assert Terminated(ls) + rest == rest;
    } else {
      SplitTerminated(ls[1..], rest);
      assert Terminated(ls) + rest == ls[0] + "\n" + (Terminated(ls[1..]) + rest);
      SplitAfterFirst(ls[0], '\n', Terminated(ls[1..]) + rest);
      assert ls == [ls[0]] + ls[1..];
    }
  }

  lemma RegroupHeaded(h1: string, t1: string, h2: string, t2: string)
    ensures h1 + "\n" + t1 + (h2 + "\n") + t2 == h1 + "\n" + (t1 + (h2 + "\n" + t2))
  {
  }

  /** Two headed lists of terminated lines split back into the headers and their lines. */
  lemma SplitHeadedLists(h1: string, xs: seq<string>, h2: string, ys: seq<string>)
    requires '\n' !in h1 && '\n' !in h2
    requires forall i :: 0 <= i < |xs| ==> '\n' !in xs[i]
    requires forall i :: 0 <= i < |ys| ==> '\n' !in ys[i]
    ensures Split(h1 + "\n" + Terminated(xs) + (h2 + "\n") + Terminated(ys), "\n") == [h1] + xs + [h2] + ys + [""]
  {
    var t1, t2 := Terminated(xs), Terminated(ys);
    RegroupHeaded(h1, t1, h2, t2);
    SplitLastList(h2, ys);
    SplitTerminated(xs, h2 + "\n" + t2);
    SplitAfterFirst(h1, '\n', t1 + (h2 + "\n" + t2));
    RegroupLines(h1, xs, h2, ys);
  }

  lemma RegroupLines(h1: string, xs: seq<string>, h2: string, ys: seq<string>)
    ensures [h1] + (xs + ([h2] + ys + [""])) == [h1] + xs + [h2] + ys + [""]
  {
  }

  lemma SplitLastList(h: string, ys: seq<string>)
    requires '\n' !in h
    requires forall i :: 0 <= i < |ys| ==> '\n' !in ys[i]
    ensures Split(h + "\n" + Terminated(ys), "\n") == [h] + ys + [""]
  {
    var t := Terminated(ys);
    assert t + "" == t;
    SplitTerminated(ys, "");
    SplitWithoutSeparator("", '\n');
    assert Split(t, "\n") == ys + [""];
    SplitAfterFirst(h, '\n', t);
    assert Split(h + "\n" + t, "\n") == [h] + (ys + [""]);
    SeqAssociates([h], ys, [""]);
  }

  lemma SeqAssociates<T>(a: seq<T>, b: seq<T>, c: seq<T>)
    ensures a + (b + c) == a + b + c
  {
  }

  /** `a + b + c` starts with `a` and ends with `c`. */
  lemma Framed(a: string, b: string, c: string)
    ensures StartsWith(a + b + c, a) && EndsWith(a + b + c, c)
  {
    assert (a + b + c)[..|a|] == a;
    assert (a + b + c)[|a + b|..] == c;
  }

  /** A prefix of `s` stays a prefix of anything `s` begins. */
  lemma StartsWithThen(s: string, p: string, t: string)
    requires StartsWith(s, p)
    ensures StartsWith(s + t, p)
  {
    assert (s + t)[..|p|] == s[..|p|];
  }

  /** A non-empty `b` and `a + b` split before their common last element. */
  lemma SplitLast<T>(a: seq<T>, b: seq<T>)
    requires b != []
    ensures b == b[..|b| - 1] + [b[|b| - 1]]
    ensures a + b == (a + b[..|b| - 1]) + [b[|b| - 1]]
  {
  }

  /** Dropping the element just appended gives the sequence back. */
  /** A sequence is its part before `i`, its element `i` and its part after `i`. */
  lemma SplitAround<T>(s: seq<T>, i: nat)
    requires i < |s|
    ensures s == s[..i] + [s[i]] + s[i + 1..]
  {
  }

  /** The element put between two sequences sits right after the first. */
  lemma ElementAfter<T>(a: seq<T>, x: T, b: seq<T>)
    ensures (a + [x] + b)[|a|] == x
  {
  }

  lemma DropAppended<T>(s: seq<T>, x: T)
    ensures (s + [x])[..|s|] == s && (s + [x])[|s|] == x
  {
  }

  /** `sep.join(parts)`. */
  function Join(parts: seq<string>, sep: string): string
    decreases |parts|
  {
    if |parts| == 0 then ""
    else if |parts| == 1 then parts[0]
    else parts[0] + sep + Join(parts[1..], sep)
  }

  /** Joining the pieces of a split with the same separator gives back the string. */
  lemma {:induction false} JoinSplit(s: string, sep: string)
    requires |sep| > 0
    ensures Join(Split(s, sep), sep) == s
    decreases |s|
  {
    var i := FindFrom(s, sep, 0);
    if i != -1 {
      var rest := s[i + |sep|..];
      var parts := Split(s, sep);
      assert parts == [s[..i]] + Split(rest, sep);
      assert parts[1..] == Split(rest, sep);
      assert Join(parts, sep) == s[..i] + sep + Join(Split(rest, sep), sep);
      JoinSplit(rest, sep);
      assert s[i..i + |sep|] == sep;
      assert s == s[..i] + s[i..i + |sep|] + rest;
    }
  }

  /** `s.replace(pat, rep)` for a non-empty `pat`: every non-overlapping occurrence, left to right.
      A replacement no longer than the pattern never lengthens the text. */
  function Replace(s: string, pat: string, rep: string): (r: string)
    requires |pat| > 0
    ensures |rep| <= |pat| ==> |r| <= |s|
    decreases |s|
  {
    var i := FindFrom(s, pat, 0);
    if i == -1 then s else s[..i] + rep + Replace(s[i + |pat|..], pat, rep)
  }

  /** `replace` is `split` followed by `join` with the replacement. */
  lemma {:induction false} ReplaceIsJoinSplit(s: string, pat: string, rep: string)
    requires |pat| > 0
    ensures Replace(s, pat, rep) == Join(Split(s, pat), rep)
    decreases |s|
  {
    var i := FindFrom(s, pat, 0);
    if i == -1 {
      assert Split(s, pat) == [s];
    } else {
      var rest := s[i + |pat|..];
      var parts := Split(s, pat);
      assert parts == [s[..i]] + Split(rest, pat);
      assert parts[1..] == Split(rest, pat);
      assert Join(parts, rep) == s[..i] + rep + Join(Split(rest, pat), rep);
      ReplaceIsJoinSplit(rest, pat, rep);
      assert Replace(s, pat, rep) == s[..i] + rep + Replace(rest, pat, rep);
    }
  }

  /** Replacing one character by another maps the string character by character. */
  lemma {:induction false} ReplaceCharAt(s: string, a: char, b: char)
    ensures |Replace(s, [a], [b])| == |s|
    ensures forall k :: 0 <= k < |s| ==> Replace(s, [a], [b])[k] == if s[k] == a then b else s[k]
    decreases |s|
  {
    var i := FindFrom(s, [a], 0);
    if i != -1 {
      var rest := s[i + 1..];
      ReplaceCharAt(rest, a, b);
      var tail := Replace(rest, [a], [b]);
      var r := s[..i] + [b] + tail;
      assert Replace(s, [a], [b]) == r;
      forall k | 0 <= k < |s|
        ensures r[k] == if s[k] == a then b else s[k]
      {
        if k < i {
          assert !OccursAt(s, [a], k);
          assert s[k..k + 1] == [s[k]];
        } else if k == i {
          assert s[i..i + 1] == [a];
        } else {
          assert r[k] == tail[k - i - 1] && rest[k - i - 1] == s[k];
        }
      }
    } else {
      forall k | 0 <= k < |s| ensures s[k] != a {
        assert !OccursAt(s, [a], k);
        assert s[k..k + 1] == [s[k]];
      }
    }
  }

  /** `replace` never turns a non-empty string into an empty one when the replacement is non-empty. */
  lemma {:induction false} ReplaceKeepsNonEmpty(s: string, pat: string, rep: string)
    requires |pat| > 0 && |rep| > 0
    ensures Replace(s, pat, rep) == "" <==> s == ""
  {
    var i := FindFrom(s, pat, 0);
    if i != -1 {
      assert |s[..i] + rep + Replace(s[i + |pat|..], pat, rep)| >= |rep|;
    }
  }

  /** `"".join(parts)`. */
  function Concat(parts: seq<string>): string
    decreases |parts|
  {
    if |parts| == 0 then "" else Concat(parts[..|parts| - 1]) + parts[|parts| - 1]
  }

  lemma {:induction false} ConcatAppend(parts: seq<string>, x: string)
    ensures Concat(parts + [x]) == Concat(parts) + x
  {
    assert (parts + [x])[..|parts|] == parts;
  }

  lemma {:induction false} ConcatPrepend(x: string, parts: seq<string>)
    ensures Concat([x] + parts) == x + Concat(parts)
  {
    ConcatOfSplitPoint([x] + parts, 1);
    assert ([x] + parts)[..1] == [x];
    assert ([x] + parts)[1..] == parts;
    assert Concat([x]) == Concat([]) + x;
  }

  lemma {:induction false} ConcatOfSplitPoint(parts: seq<string>, k: nat)
    requires k <= |parts|
    ensures Concat(parts) == Concat(parts[..k]) + Concat(parts[k..])
    decreases |parts|
  {
    if k < |parts| {
      var n := |parts| - 1;
      ConcatOfSplitPoint(parts[..n], k);
      assert parts[..n][..k] == parts[..k];
      assert parts[k..][..|parts[k..]| - 1] == parts[..n][k..];
    } else {
      assert parts[k..] == [];
      assert parts[..k] == parts;
    }
  }

  /** Cutting a list of strings at two points splits its concatenation in three. */
  lemma {:induction false} ConcatOfRange(parts: seq<string>, i: nat, j: nat)
    requires i <= j <= |parts|
    ensures Concat(parts) == Concat(parts[..i]) + Concat(parts[i..j]) + Concat(parts[j..])
  {
    var mid := parts[i..];
    ConcatOfSplitPoint(parts, i);
    ConcatOfSplitPoint(mid, j - i);
    assert mid[..j - i] == parts[i..j];
    assert mid[j - i..] == parts[j..];
    var a, b, c := Concat(parts[..i]), Concat(parts[i..j]), Concat(parts[j..]);
    assert Concat(mid) == b + c;
    assert a + (b + c) == a + b + c;
  }

  /** Clamps a Python slice bound to `0..n`; negative bounds count from the end. */
  function SliceBound(i: int, n: nat): (r: nat)
    ensures r <= n
    ensures 0 <= i <= n ==> r == i
  {
    if i < 0 then (if i + n < 0 then 0 else i + n) else if i > n then n else i
  }

  /** Python's `s[i:j]` on any sequence. */
  function Slice<T>(s: seq<T>, i: int, j: int): (r: seq<T>)
    ensures |r| <= |s|
    ensures 0 <= i <= j <= |s| ==> r == s[i..j]
  {
    var a := SliceBound(i, |s|);
    var b := SliceBound(j, |s|);
    if a <= b then s[a..b] else []
  }

  function LowerChar(c: char): char {
    if 'A' <= c <= 'Z' then (c as int + 32) as char else c
  }

  /** `s.lower()` for ASCII letters. */
  function Lower(s: string): (r: string)
    ensures |r| == |s|
    decreases |s|
  {
    if s == [] then [] else [LowerChar(s[0])] + Lower(s[1..])
  }
}
