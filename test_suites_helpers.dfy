/** The text helpers of the Defects4J test-suite driver: where a project keeps its sources and
    tests, which sources `defects4j info` lists as modified, how the failing-test report is cut
    into one segment per test, and what a segment says about the failure. The `defects4j`
    process itself is outside the model: its exit code and output are parameters. */
module TestSuitesHelpers {
  import opened Outcomes
  import opened Text
  import opened Numerals

  /* ---------- Paths ---------- */

  /** `os.path.join(a, b)` on POSIX: an absolute `b` replaces `a`; otherwise a slash goes between
      them unless `a` is empty or already ends in one. */
  function PathJoin(a: string, b: string): (r: string)
    ensures EndsWith(r, b)
  {
    if StartsWith(b, "/") then b
    else if a == "" || EndsWith(a, "/") then a + b
    else a + "/" + b
  }

  /** The file a dotted class name lives in, relative to its source root. */
  function ClassFile(package: string): string {
    Replace(package, ".", "/") + ".java"
  }

  /** The class file is the class name with each dot turned into a slash, then `.java`. */
  lemma ClassFileSpellsPackage(package: string)
    ensures |ClassFile(package)| == |package| + 5
    ensures forall k :: 0 <= k < |package| ==>
              ClassFile(package)[k] == if package[k] == '.' then '/' else package[k]
    ensures EndsWith(ClassFile(package), ".java")
  {
    ReplaceCharAt(package, '.', '/');
    var f := Replace(package, ".", "/");
    assert ClassFile(package)[|package|..] == ".java";
    forall k | 0 <= k < |package|
      ensures ClassFile(package)[k] == f[k]
    {
    }
  }

  /** `connect_paths`: the working directory, the project's entry in `paths` and the class file,
      joined. A project missing from the table puts `None` into the join, which raises
      `TypeError`; the project name is looked up in lower case. */
  function ConnectPaths(project: string, workingDir: string, paths: map<string, string>, package: string)
    : (r: Result<string>)
    ensures r.Ok? <==> Lower(project) in paths
    ensures r.Raise? ==> r.error == TypeError
    ensures r.Ok? ==> EndsWith(r.value, ClassFile(package))
  {
    var key := Lower(project);
    if key !in paths then Raise(TypeError)
    else Ok(PathJoin(PathJoin(workingDir, paths[key]), ClassFile(package)))
  }

  /** A relative, slash-free-at-the-ends directory, prefix and class name are joined with one
      slash each. */
  predicate PlainSegment(s: string) {
    s != "" && s[0] != '/' && s[|s| - 1] != '/'
  }

  lemma ConnectPathsLayout(project: string, workingDir: string, paths: map<string, string>, package: string)
    ensures ConnectPaths(project, workingDir, paths, package).Ok? <==> Lower(project) in paths
    ensures Lower(project) in paths && workingDir != "" && !EndsWith(workingDir, "/")
            && PlainSegment(paths[Lower(project)]) && package != "" && package[0] != '.' && package[0] != '/' ==>
              ConnectPaths(project, workingDir, paths, package)
              == Ok(workingDir + "/" + paths[Lower(project)] + "/" + ClassFile(package))
  {
    var key := Lower(project);
    if key in paths && workingDir != "" && !EndsWith(workingDir, "/")
       && PlainSegment(paths[key]) && package != "" && package[0] != '.' && package[0] != '/' {
      var prefix := paths[key];
      ClassFileSpellsPackage(package);
      assert !StartsWith(ClassFile(package), "/");
      var dir := workingDir + "/" + prefix;
      assert PathJoin(workingDir, prefix) == dir;
      assert dir[|dir| - 1] == prefix[|prefix| - 1];
      assert !EndsWith(dir, "/");
    }
  }

  /** The six projects and where each keeps its sources and its tests. */
  const Projects: set<string> := {"chart", "closure", "mockito", "math", "lang", "time"}

  const SourceRoots: map<string, string> := map[
    "chart" := "source", "closure" := "src", "mockito" := "src",
    "math" := "src/main/java", "lang" := "src/main/java", "time" := "src/main/java"]

  const TestRoots: map<string, string> := map[
    "chart" := "tests", "closure" := "tests", "mockito" := "test",
    "math" := "src/test/java", "lang" := "src/test/java", "time" := "src/test/java"]

  /** `get_full_source_path`: a path for one of the six projects, ending in the class file. */
  function FullSourcePath(project: string, workingDir: string, package: string): (r: Result<string>)
    ensures r.Ok? <==> Lower(project) in Projects
    ensures r.Raise? ==> r.error == TypeError
    ensures r.Ok? ==> EndsWith(r.value, ClassFile(package))
  {
    RootTablesCoverProjects();
    ConnectPaths(project, workingDir, SourceRoots, package)
  }

  /** `get_full_test_path`: the same with the test roots. */
  function FullTestPath(project: string, workingDir: string, testClass: string): (r: Result<string>)
    ensures r.Ok? <==> Lower(project) in Projects
    ensures r.Raise? ==> r.error == TypeError
    ensures r.Ok? ==> EndsWith(r.value, ClassFile(testClass))
  {
    RootTablesCoverProjects();
    ConnectPaths(project, workingDir, TestRoots, testClass)
  }

  /** Both tables know exactly the six projects, and every root is a plain relative path. */
  lemma RootTablesCoverProjects()
    ensures SourceRoots.Keys == Projects && TestRoots.Keys == Projects
    ensures forall p :: p in SourceRoots ==> PlainSegment(SourceRoots[p])
    ensures forall p :: p in TestRoots ==> PlainSegment(TestRoots[p])
  {
    forall p | p in SourceRoots
      ensures PlainSegment(SourceRoots[p])
    {
      assert SourceRoots[p] in {"source", "src", "src/main/java"};
    }
    forall p | p in TestRoots
      ensures PlainSegment(TestRoots[p])
    {
      assert TestRoots[p] in {"tests", "test", "src/test/java"};
    }
  }

  /** For a known project the source path is directory, source root and class file; for any
      other project the lookup raises. */
  lemma FullSourcePathLayout(project: string, workingDir: string, package: string)
    ensures FullSourcePath(project, workingDir, package).Ok? <==> Lower(project) in Projects
    ensures Lower(project) in Projects && workingDir != "" && !EndsWith(workingDir, "/")
            && package != "" && package[0] != '.' && package[0] != '/' ==>
              FullSourcePath(project, workingDir, package)
              == Ok(workingDir + "/" + SourceRoots[Lower(project)] + "/" + ClassFile(package))
  {
    RootTablesCoverProjects();
    ConnectPathsLayout(project, workingDir, SourceRoots, package);
  }

  /** The same for the test path and the test root. */
  lemma FullTestPathLayout(project: string, workingDir: string, testClass: string)
    ensures FullTestPath(project, workingDir, testClass).Ok? <==> Lower(project) in Projects
    ensures Lower(project) in Projects && workingDir != "" && !EndsWith(workingDir, "/")
            && testClass != "" && testClass[0] != '.' && testClass[0] != '/' ==>
              FullTestPath(project, workingDir, testClass)
              == Ok(workingDir + "/" + TestRoots[Lower(project)] + "/" + ClassFile(testClass))
  {
    RootTablesCoverProjects();
    ConnectPathsLayout(project, workingDir, TestRoots, testClass);
  }

  /* ---------- Modified sources ---------- */

  const SourcesHeader := "List of modified sources:"
  const EntryMark := "- "

  /** Every line stripped, as the scan looks at it. */
  function StripAll(lines: seq<string>): (r: seq<string>)
    ensures |r| == |lines| && forall i :: 0 <= i < |lines| ==> r[i] == Strip(lines[i])
  {
    seq(|lines|, i requires 0 <= i < |lines| => Strip(lines[i]))
  }

  /** The scan of `get_modified_sources` over the remaining stripped lines, `inSection` once
      the header has been seen. */
  function Scan(stripped: seq<string>, inSection: bool): (r: seq<string>)
    ensures |r| <= |stripped|
    decreases |stripped|
  {
    if stripped == [] then []
    else
      var t := stripped[0];
      if t == SourcesHeader then Scan(stripped[1..], true)
      else if inSection && StartsWith(t, EntryMark) then [Strip(t[2..])] + Scan(stripped[1..], inSection)
      else if inSection && t == "" then []
      else Scan(stripped[1..], inSection)
  }

  /** What `get_modified_sources` returns for the exit code and output of `defects4j info`; a run
      that fails (or cannot start) gives the empty list. */
  function ModifiedSources(exitCode: int, output: string): (r: seq<string>)
    ensures |r| <= |Split(output, "\n")|
    ensures forall x :: x in r ==> Stripped(x)
  {
    if exitCode != 0 then []
    else
      ScanEntriesStripped(StripAll(Split(output, "\n")), false);
      Scan(StripAll(Split(output, "\n")), false)
  }

  /** Every entry the scan collects is stripped. */
  lemma {:induction false} ScanEntriesStripped(stripped: seq<string>, inSection: bool)
    ensures forall x :: x in Scan(stripped, inSection) ==> Stripped(x)
    decreases |stripped|
  {
    if stripped != [] {
      var t := stripped[0];
      var rest := Scan(stripped[1..], if t == SourcesHeader then true else inSection);
      ScanEntriesStripped(stripped[1..], if t == SourcesHeader then true else inSection);
      if t != SourcesHeader && inSection && StartsWith(t, EntryMark) {
        assert Scan(stripped, inSection) == [Strip(t[2..])] + rest;
      }
    }
  }

  /** The entries of a block of stripped lines: every line that starts with `- `, without that
      mark and stripped again. */
  function Entries(stripped: seq<string>): seq<string>
    decreases |stripped|
  {
    if stripped == [] then []
    else
      var t := stripped[0];
      (if StartsWith(t, EntryMark) then [Strip(t[2..])] else []) + Entries(stripped[1..])
  }

  /** Without the header no line is collected. */
  lemma {:induction false} NoHeaderNoSources(stripped: seq<string>)
    requires forall i :: 0 <= i < |stripped| ==> stripped[i] != SourcesHeader
    ensures Scan(stripped, false) == []
    decreases |stripped|
  {
    if stripped != [] {
      NoHeaderNoSources(stripped[1..]);
    }
  }

  /** Lines before the first header are ignored. */
  lemma {:induction false} ScanSkipsToHeader(stripped: seq<string>, h: nat)
    requires h < |stripped| && stripped[h] == SourcesHeader
    requires forall i :: 0 <= i < h ==> stripped[i] != SourcesHeader
    ensures Scan(stripped, false) == Scan(stripped[h + 1..], true)
    decreases h
  {
    if h > 0 {
      ScanSkipsToHeader(stripped[1..], h - 1);
      assert stripped[1..][h - 1 + 1..] == stripped[h + 1..];
    }
  }

  /** Inside the section every entry line is collected, in order, up to the first empty line. */
  lemma {:induction false} ScanCollectsSection(stripped: seq<string>, e: nat)
    requires e <= |stripped|
    requires forall i :: 0 <= i < e ==> stripped[i] != ""
    requires e == |stripped| || stripped[e] == ""
    ensures Scan(stripped, true) == Entries(stripped[..e])
    decreases e
  {
    if e > 0 {
      ScanCollectsSection(stripped[1..], e - 1);
      assert stripped[1..][..e - 1] == stripped[..e][1..];
      ScanSectionStep(stripped);
    } else if stripped != [] {
      assert stripped[..0] == [];
    }
  }

  /** One step of the scan inside the section over a line that is not empty. */
  lemma ScanSectionStep(stripped: seq<string>)
    requires stripped != [] && stripped[0] != ""
    ensures Scan(stripped, true) ==
      (if StartsWith(stripped[0], EntryMark) then [Strip(stripped[0][2..])] else []) + Scan(stripped[1..], true)
  {
    var t, rest := stripped[0], stripped[1..];
    if t == SourcesHeader {
      HeaderIsNoEntry();
      assert Scan(stripped, true) == Scan(rest, true);
    } else if StartsWith(t, EntryMark) {
      assert Scan(stripped, true) == [Strip(t[2..])] + Scan(rest, true);
    } else {
      assert Scan(stripped, true) == Scan(rest, true);
      assert [] + Scan(rest, true) == Scan(rest, true);
    }
  }

  lemma HeaderIsNoEntry()
    ensures !StartsWith(SourcesHeader, EntryMark)
  {
    assert SourcesHeader[0] != EntryMark[0];
  }

  /** The listed sources are the entries between the first header and the first empty line
      after it. */
  lemma SectionEntries(stripped: seq<string>, h: nat, e: nat)
    requires h < e <= |stripped| && stripped[h] == SourcesHeader
    requires forall i :: 0 <= i < h ==> stripped[i] != SourcesHeader
    requires forall i :: h < i < e ==> stripped[i] != ""
    requires e == |stripped| || stripped[e] == ""
    ensures Scan(stripped, false) == Entries(stripped[h + 1..e])
  {
    var rest, n := stripped[h + 1..], e - h - 1;
    SectionAfterHeader(stripped, h, e, rest, n);
    assert Scan(stripped, false) == Scan(rest, true) by {
      ScanSkipsToHeader(stripped, h);
    }
    assert Scan(rest, true) == Entries(rest[..n]) by {
      ScanCollectsSection(rest, n);
    }
  }

  /** The lines after the header, seen from the line after it. */
  lemma SectionAfterHeader(stripped: seq<string>, h: nat, e: nat, rest: seq<string>, n: nat)
    requires h < e <= |stripped|
    requires forall i :: h < i < e ==> stripped[i] != ""
    requires e == |stripped| || stripped[e] == ""
    requires rest == stripped[h + 1..] && n == e - h - 1
    ensures n <= |rest| && (forall i :: 0 <= i < n ==> rest[i] != "")
    ensures n == |rest| || rest[n] == ""
    ensures rest[..n] == stripped[h + 1..e]
  {
    assert forall i :: 0 <= i < |rest| ==> rest[i] == stripped[h + 1 + i];
  }

  /** Output without the header lists nothing. */
  lemma NoHeaderNoModifiedSources(exitCode: int, output: string)
    requires forall i :: 0 <= i < |Split(output, "\n")| ==> Strip(Split(output, "\n")[i]) != SourcesHeader
    ensures ModifiedSources(exitCode, output) == []
  {
    if exitCode == 0 {
      NoHeaderNoSources(StripAll(Split(output, "\n")));
    }
  }

  /** One step of the scan at position `i`, by the kind of line found there. */
  lemma ScanAt(stripped: seq<string>, i: nat, inSection: bool)
    requires i < |stripped|
    ensures var t, here, next := stripped[i], Scan(stripped[i..], inSection), stripped[i + 1..];
      (t == SourcesHeader ==> here == Scan(next, true))
      && (t != SourcesHeader && inSection && StartsWith(t, EntryMark) ==>
            here == [Strip(t[2..])] + Scan(next, inSection))
      && (t != SourcesHeader && !(inSection && StartsWith(t, EntryMark)) && inSection && t == "" ==>
            here == [])
      && (t != SourcesHeader && !(inSection && StartsWith(t, EntryMark)) && !(inSection && t == "") ==>
            here == Scan(next, inSection))
  {
    var rest := stripped[i..];
    assert rest[0] == stripped[i] && rest[1..] == stripped[i + 1..];
  }

  /** `get_modified_sources`: the parsing loop over the lines of the output of a run that
      succeeded; a failed run lists nothing. */
  method GetModifiedSources(exitCode: int, output: string) returns (sources: seq<string>)
    ensures sources == ModifiedSources(exitCode, output)
  {
    if exitCode != 0 {
      return [];
    }
    var lines := Split(output, "\n");
    sources := ScanLines(lines);
  }

  /** The loop over the lines: collects the entries after the header up to an empty line. */
  method ScanLines(lines: seq<string>) returns (sources: seq<string>)
    ensures sources == Scan(StripAll(lines), false)
  {
    ghost var stripped := StripAll(lines);
    sources := [];
    var inSection := false;
    for i := 0 to |lines|
      invariant sources + Scan(stripped[i..], inSection) == Scan(stripped, false)
    {
      var line := Strip(lines[i]);
      assert line == stripped[i];
      ScanAt(stripped, i, inSection);
      if line == SourcesHeader {
        inSection := true;
      } else if inSection && StartsWith(line, EntryMark) {
        var source := Strip(line[2..]);
        SeqAssociates(sources, [source], Scan(stripped[i + 1..], inSection));
        sources := sources + [source];
      } else if inSection && line == "" {
        assert sources + [] == sources;
        break;
      }
    }
    assert sources + [] == sources;
  }

  /* ---------- Failing tests ---------- */

  const SegmentMark := "---"

  function TestMarker(test: string): string {
    "--- " + test
  }

  /** The segment of one test: from the first `--- test` to the next `---` after it, or to the
      end of the text; `None` when the marker does not occur. */
  function Segment(info: string, test: string): Option<string> {
    var start := FindFrom(info, TestMarker(test), 0);
    if start == -1 then None else Some(info[start..SegmentEnd(info, start)])
  }

  /** Where the segment that starts at `start` ends: the next `---` after `start`, or the end
      of the text. */
  function SegmentEnd(info: string, start: nat): (e: nat)
    requires start <= |info|
    ensures start <= e <= |info|
    ensures e == |info| || OccursAt(info, SegmentMark, e)
    ensures forall k :: start + 1 <= k < e ==> !OccursAt(info, SegmentMark, k)
  {
    var next := FindFrom(info, SegmentMark, start + 1);
    if next == -1 then |info| else next
  }

  /** A segment exists exactly when the marker occurs; it is the text from the marker's first
      occurrence up to, not including, the next `---` after that position, or to the end. */
  lemma SegmentRunsToNextMark(info: string, test: string)
    ensures Segment(info, test).Some? <==> Contains(info, TestMarker(test))
    ensures Segment(info, test).Some? ==>
      var s := Segment(info, test).value;
      var start := FindFrom(info, TestMarker(test), 0);
      OccursAt(info, TestMarker(test), start)
      && (forall k :: 0 <= k < start ==> !OccursAt(info, TestMarker(test), k))
      && start + |s| <= |info| && info[start..start + |s|] == s
      && (forall k :: 1 <= k ==> !OccursAt(s, SegmentMark, k))
      && (start + |s| == |info| || OccursAt(info, SegmentMark, start + |s|))
  {
    var start := FindFrom(info, TestMarker(test), 0);
    if start != -1 {
      NoMarkInSlice(info, start, SegmentEnd(info, start));
    }
  }

  /** A slice whose positions after the first hold no `---` has none after its first position. */
  lemma NoMarkInSlice(info: string, start: nat, end: nat)
    requires start <= end <= |info|
    requires forall k :: start + 1 <= k < end ==> !OccursAt(info, SegmentMark, k)
    ensures forall k :: 1 <= k ==> !OccursAt(info[start..end], SegmentMark, k)
  {
    var s := info[start..end];
    var m := |SegmentMark|;
    forall k | 1 <= k
      ensures !OccursAt(s, SegmentMark, k)
    {
      if k + m <= |s| {
        var inSlice, inInfo := s[k..k + m], info[start + k..start + k + m];
        forall j | 0 <= j < m
          ensures inSlice[j] == inInfo[j]
        {
          assert s[k + j] == info[start + k + j];
        }
        assert inSlice == inInfo;
        assert !OccursAt(info, SegmentMark, start + k);
      }
    }
  }

  /** The loop of `get_each_failing_test_info` from `tests` on, with the entries so far in
      `acc`. A missing marker reaches a name the module never defines: `NameError`. */
  function SegmentsFrom(tests: seq<string>, seg: string -> Option<string>, acc: map<string, string>)
    : (r: Result<map<string, string>>)
    ensures r.Raise? ==> r.error == NameError
    ensures r.Ok? ==> acc.Keys <= r.value.Keys
    decreases |tests|
  {
    if tests == [] then Ok(acc)
    else
      match seg(tests[0])
      case None => Raise(NameError)
      case Some(s) => SegmentsFrom(tests[1..], seg, acc[tests[0] := s])
  }

  /** The segment finder of one report. */
  function SegmentsOf(info: string): string -> Option<string> {
    test => Segment(info, test)
  }

  function EachFailingTestInfo(tests: seq<string>, info: string): Result<map<string, string>> {
    SegmentsFrom(tests, SegmentsOf(info), map[])
  }

  /** The loop raises exactly when some test has no marker, and then with `NameError`; otherwise
      it maps every test, and nothing else, to its segment. */
  lemma {:induction false} SegmentsFromCoverTests(tests: seq<string>, seg: string -> Option<string>, acc: map<string, string>)
    ensures SegmentsFrom(tests, seg, acc).Raise? <==>
              exists i :: 0 <= i < |tests| && seg(tests[i]).None?
    ensures SegmentsFrom(tests, seg, acc).Raise? ==> SegmentsFrom(tests, seg, acc).error == NameError
    ensures SegmentsFrom(tests, seg, acc).Ok? ==>
      var m := SegmentsFrom(tests, seg, acc).value;
      m.Keys == acc.Keys + (set x | x in tests)
      && (forall i :: 0 <= i < |tests| ==> m[tests[i]] == seg(tests[i]).value)
      && (forall k :: k in acc && k !in tests ==> m[k] == acc[k])
    decreases |tests|
  {
    if tests != [] {
      var t := tests[0];
      var tail := tests[1..];
      assert forall i :: 0 <= i < |tail| ==> tail[i] == tests[i + 1];
      if seg(t).Some? {
        var acc' := acc[t := seg(t).value];
        assert SegmentsFrom(tests, seg, acc) == SegmentsFrom(tail, seg, acc');
        SegmentsFromCoverTests(tail, seg, acc');
        if exists i :: 0 <= i < |tests| && seg(tests[i]).None? {
          var i :| 0 <= i < |tests| && seg(tests[i]).None?;
          assert i > 0 && seg(tail[i - 1]).None?;
        }
        if SegmentsFrom(tests, seg, acc).Ok? {
          var m := SegmentsFrom(tests, seg, acc).value;
          ElementsOfCons(tests);
          forall i | 0 <= i < |tests|
            ensures m[tests[i]] == seg(tests[i]).value
          {
            if i > 0 {
              assert tests[i] == tail[i - 1];
            } else if t !in tail {
              assert m[t] == acc'[t];
            } else {
              var j :| 0 <= j < |tail| && tail[j] == t;
              assert m[tail[j]] == seg(tail[j]).value;
            }
          }
        }
      } else {
        assert seg(tests[0]).None?;
      }
    }
  }

  /** `get_each_failing_test_info`, as written. */
  method GetEachFailingTestInfo(tests: seq<string>, info: string) returns (r: Result<map<string, string>>)
    ensures r == EachFailingTestInfo(tests, info)
  {
    var infoForEachTest: map<string, string> := map[];
    for i := 0 to |tests|
      invariant SegmentsFrom(tests[i..], SegmentsOf(info), infoForEachTest) == EachFailingTestInfo(tests, info)
    {
      var test := tests[i];
      assert tests[i..][1..] == tests[i + 1..];
      var startMarker := "--- " + test;
      var start := FindFrom(info, startMarker, 0);
      if start == -1 {
        return Raise(NameError);
      }
      var next := FindFrom(info, SegmentMark, start + 1);
      var testInfo;
      if next == -1 {
        testInfo := info[start..];
      } else {
        testInfo := info[start..next];
      }
      assert testInfo == info[start..SegmentEnd(info, start)];
      assert SegmentsOf(info)(test) == Some(testInfo);
      infoForEachTest := infoForEachTest[test := testInfo];
    }
    assert tests[|tests|..] == [];
    return Ok(infoForEachTest);
  }

  /** A single test without a marker makes the whole call raise. */
  lemma MissingMarkerRaises()
    ensures EachFailingTestInfo(["Test::run"], "") == Raise(NameError)
  {
    assert FindFrom("", TestMarker("Test::run"), 0) == -1;
  }

  /** The segment of a test, or the empty string when its marker is missing. */
  function OrEmpty(s: Option<string>): string {
    match s
    case None => ""
    case Some(s) => s
  }

  /** The loop as evidently intended: a test without a marker gets the empty segment. */
  function SegmentsFromCorrected(tests: seq<string>, seg: string -> Option<string>, acc: map<string, string>): map<string, string>
    decreases |tests|
  {
    if tests == [] then acc
    else SegmentsFromCorrected(tests[1..], seg, acc[tests[0] := OrEmpty(seg(tests[0]))])
  }

  function EachFailingTestInfoCorrected(tests: seq<string>, info: string): map<string, string> {
    SegmentsFromCorrected(tests, SegmentsOf(info), map[])
  }

  /** Corrected, every test gets an entry, its segment or the empty string when its marker is
      missing, and wherever the program as written succeeds it gives the same map. */
  lemma {:induction false} CorrectedSegmentsCoverTests(tests: seq<string>, seg: string -> Option<string>, acc: map<string, string>)
    ensures SegmentsFromCorrected(tests, seg, acc).Keys == acc.Keys + (set x | x in tests)
    ensures forall i :: 0 <= i < |tests| ==> SegmentsFromCorrected(tests, seg, acc)[tests[i]] == OrEmpty(seg(tests[i]))
    ensures SegmentsFrom(tests, seg, acc).Ok? ==> SegmentsFrom(tests, seg, acc).value == SegmentsFromCorrected(tests, seg, acc)
    decreases |tests|
  {
    if tests != [] {
      var t := tests[0];
      var tail := tests[1..];
      var acc' := acc[t := OrEmpty(seg(t))];
      CorrectedSegmentsCoverTests(tail, seg, acc');
      assert forall i :: 0 <= i < |tail| ==> tail[i] == tests[i + 1];
      var m := SegmentsFromCorrected(tests, seg, acc);
      ElementsOfCons(tests);
      forall i | 0 <= i < |tests|
        ensures m[tests[i]] == OrEmpty(seg(tests[i]))
      {
        if i > 0 {
          assert tests[i] == tail[i - 1];
        } else if t in tail {
          var j :| 0 <= j < |tail| && tail[j] == t;
          assert m[tail[j]] == OrEmpty(seg(tail[j]));
        } else {
          CorrectedKeepsUnlisted(tail, seg, acc', t);
        }
      }
    }
  }

  /** The tests named by a list are its first one and those named by the rest. */
  lemma ElementsOfCons(tests: seq<string>)
    requires tests != []
    ensures (set x | x in tests) == {tests[0]} + (set x | x in tests[1..])
  {
    assert forall x :: x in tests <==> x == tests[0] || x in tests[1..];
  }

  /** A key the remaining tests do not name keeps its entry. */
  lemma {:induction false} CorrectedKeepsUnlisted(tests: seq<string>, seg: string -> Option<string>, acc: map<string, string>, k: string)
    requires k in acc && k !in tests
    ensures k in SegmentsFromCorrected(tests, seg, acc) && SegmentsFromCorrected(tests, seg, acc)[k] == acc[k]
    decreases |tests|
  {
    if tests != [] {
      assert k !in tests[1..];
      CorrectedKeepsUnlisted(tests[1..], seg, acc[tests[0] := OrEmpty(seg(tests[0]))], k);
    }
  }

  /** The empty segment the corrected loop records for a test without a marker. */
  lemma CorrectedMissingMarker()
    ensures EachFailingTestInfoCorrected(["Test::run"], "") == map["Test::run" := ""]
  {
    assert FindFrom("", TestMarker("Test::run"), 0) == -1;
  }

  /** `get_failure_message`: the second line of the segment, stripped, or the empty string. */
  function FailureMessage(testInfo: string): (r: string)
    ensures '\n' !in r && Stripped(r)
  {
    var lines := Split(testInfo, "\n");
    SplitPiecesLackSeparator(testInfo, '\n');
    if |lines| > 1 then StripKeepsAbsent(lines[1], '\n'); Strip(lines[1]) else ""
  }

  /** A single line has no message. */
  lemma SingleLineHasNoMessage(first: string)
    requires '\n' !in first
    ensures FailureMessage(first) == ""
  {
    SplitWithoutSeparator(first, '\n');
  }

  /** The message is the stripped second line, whether it ends the text or more lines follow. */
  lemma FailureMessageIsSecondLine(first: string, second: string)
    requires '\n' !in first && '\n' !in second
    ensures FailureMessage(first + "\n" + second) == Strip(second)
  {
    SplitAfterFirst(first, '\n', second);
    SplitWithoutSeparator(second, '\n');
    var lines := Split(first + "\n" + second, "\n");
    assert lines == [first] + [second];
    assert lines[1] == second;
  }

  lemma FailureMessageIgnoresLaterLines(first: string, second: string, rest: string)
    requires '\n' !in first && '\n' !in second
    ensures FailureMessage(first + "\n" + second + "\n" + rest) == Strip(second)
  {
    var tail := second + "\n" + rest;
    assert first + "\n" + second + "\n" + rest == first + "\n" + tail;
    SplitAfterFirst(first, '\n', tail);
    SplitAfterFirst(second, '\n', rest);
  }

  /* ---------- Failing test method and line ---------- */

  const FrameMark := "at "
  const MemberSeparator := "::"

  /** A character that occurs in a string splits it into at least two pieces. */
  lemma SplitAtPresentChar(s: string, c: char)
    requires c in s
    ensures |Split(s, [c])| >= 2
  {
    var k :| 0 <= k < |s| && s[k] == c;
    assert s[k..k + 1] == [c];
    assert OccursAt(s, [c], k);
  }

  /** The text after the first `:` between the first `(` and the next `)` of a stack-frame
      line, when the line has both parentheses and that part has a colon. */
  function LineNumberField(line: string): (r: Option<string>)
    ensures r.Some? ==> '(' in line && ')' in line && ':' !in r.value
  {
    if '(' in line && ')' in line then
      SplitAtPresentChar(line, '(');
      var part := Split(Split(line, "(")[1], ")")[0];
      if ':' in part then
        SplitAtPresentChar(part, ':');
        SplitPiecesLackSeparator(part, ':');
        Some(Split(part, ":")[1])
      else None
    else None
  }

  /** For a frame `pre(File.java:42)` the field is `42`. */
  lemma LineNumberFieldOfFrame(pre: string, file: string, number: string)
    requires '(' !in pre
    requires '(' !in file && ')' !in file && ':' !in file
    requires '(' !in number && ')' !in number && ':' !in number
    ensures LineNumberField(pre + "(" + file + ":" + number + ")") == Some(number)
  {
    var line := pre + "(" + file + ":" + number + ")";
    var inner := file + ":" + number + ")";
    var part := file + ":" + number;
    assert Split(line, "(")[1] == inner by {
      assert line == pre + ['('] + inner;
      SplitAfterFirst(pre, '(', inner);
      SplitWithoutSeparator(inner, '(');
    }
    assert Split(inner, ")")[0] == part by {
      assert inner == part + [')'] + "";
      SplitAfterFirst(part, ')', "");
    }
    assert Split(part, ":")[1] == number by {
      assert part == file + [':'] + number;
      SplitAfterFirst(file, ':', number);
      SplitWithoutSeparator(number, ':');
    }
    assert '(' in line && ')' in line by {
      assert line[|pre|] == '(';
      assert line[|pre| + 1 + |file| + 1 + |number|] == ')';
    }
    assert ':' in part by {
      assert part[|file|] == ':';
    }
  }

  /** A stack-frame line of the test: stripped it starts with `at `, and it names the test. */
  predicate FrameOf(line: string, dotted: string) {
    StartsWith(Strip(line), FrameMark) && Contains(line, dotted)
  }

  /** The line-number field of a line, if it is a frame of the test. */
  function FrameField(dotted: string): string -> Option<string> {
    line => if FrameOf(line, dotted) then LineNumberField(line) else None
  }

  /** The first value `f` gives for one of the lines. */
  function FirstField(lines: seq<string>, f: string -> Option<string>): Option<string>
    decreases |lines|
  {
    if lines == [] then None
    else if f(lines[0]).Some? then f(lines[0])
    else FirstField(lines[1..], f)
  }

  /** The value comes from the first line that has one, and there is none exactly when no line
      has one. */
  lemma {:induction false} FirstFieldIsFirst(lines: seq<string>, f: string -> Option<string>)
    ensures FirstField(lines, f).None? <==> forall i :: 0 <= i < |lines| ==> f(lines[i]).None?
    ensures FirstField(lines, f).Some? ==>
      exists i :: 0 <= i < |lines| && FirstField(lines, f) == f(lines[i])
        && forall j :: 0 <= j < i ==> f(lines[j]).None?
    decreases |lines|
  {
    if lines != [] && f(lines[0]).None? {
      var tail := lines[1..];
      FirstFieldIsFirst(tail, f);
      assert forall i :: 0 <= i < |tail| ==> tail[i] == lines[i + 1];
      if FirstField(tail, f).Some? {
        var i :| 0 <= i < |tail| && FirstField(tail, f) == f(tail[i])
          && forall j :: 0 <= j < i ==> f(tail[j]).None?;
        assert FirstField(lines, f) == f(lines[i + 1]);
        assert forall j :: 0 <= j < i + 1 ==> f(lines[j]).None? by {
          forall j | 0 <= j < i + 1
            ensures f(lines[j]).None?
          {
            if j > 0 {
              assert lines[j] == tail[j - 1];
            }
          }
        }
      }
    }
  }

  /** The result for an identifier `p::m` once the field of the first frame line, if any, is
      known. */
  function Located(p: string, m: string, field: Option<string>): (r: Result<(string, string, int)>)
    ensures r.Raise? ==> r.error == ValueError
    ensures r.Ok? ==> r.value.0 == p && r.value.1 == m
  {
    match field
    case None => Ok((p, m, -1))
    case Some(f) =>
      match ParseInt(f)
      case Raise(e) => Raise(e)
      case Ok(n) => Ok((p, m, n))
  }

  /** A line number with more digits than `int()` converts raises `ValueError`, however well
      formed it is. */
  lemma LongLineNumberRaises(p: string, m: string, digits: string)
    requires DigitsWithUnderscores(digits) && |RemoveUnderscores(digits)| > MaxStrDigits
    ensures Located(p, m, Some(digits)) == Raise(ValueError)
  {
    ParseIntRejectsLong(digits);
  }

  /** What `get_failing_test_method_and_line` returns: `("", "", 0)` for an identifier that is
      not `Class::method`; otherwise the two parts with the number of the first frame line, or
      -1; a number that is not an integer makes `int()` raise `ValueError`. */
  function MethodAndLine(test: string, testInfo: string): (r: Result<(string, string, int)>)
    ensures r.Raise? ==> r.error == ValueError
    ensures r.Ok? ==> r.value == ("", "", 0) || r.value.0 + MemberSeparator + r.value.1 == test
  {
    var parts := Split(test, MemberSeparator);
    if |parts| != 2 then Ok(("", "", 0))
    else
      TwoPartsRejoin(test);
      Located(parts[0], parts[1], FirstField(Split(testInfo, "\n"), FrameField(Replace(test, MemberSeparator, "."))))
  }

  /** Two parts of a split at `::` put back together with `::` give the identifier. */
  lemma TwoPartsRejoin(test: string)
    requires |Split(test, MemberSeparator)| == 2
    ensures Split(test, MemberSeparator)[0] + MemberSeparator + Split(test, MemberSeparator)[1] == test
  {
    var parts := Split(test, MemberSeparator);
    JoinSplit(test, MemberSeparator);
    assert parts[1..] == [parts[1]];
    assert Join(parts, MemberSeparator) == parts[0] + MemberSeparator + parts[1];
  }

  /** An identifier that is not `Class::method` gives `("", "", 0)`; otherwise the result is
      located from the first frame line, and its two parts put back together with `::` give the
      identifier. */
  lemma MethodAndLineParts(test: string, testInfo: string)
    ensures |Split(test, MemberSeparator)| != 2 ==> MethodAndLine(test, testInfo) == Ok(("", "", 0))
    ensures |Split(test, MemberSeparator)| == 2 ==>
      var parts := Split(test, MemberSeparator);
      parts[0] + MemberSeparator + parts[1] == test
      && MethodAndLine(test, testInfo)
         == Located(parts[0], parts[1], FirstField(Split(testInfo, "\n"), FrameField(Replace(test, MemberSeparator, "."))))
  {
    if |Split(test, MemberSeparator)| == 2 {
      TwoPartsRejoin(test);
    }
  }

  /** The number is -1 when no line has a field; otherwise it is the parsed field of the first
      line that has one, and a field that is not an integer, raising `ValueError`, is the only
      way to fail. */
  lemma LocatedFromFirstFrame(p: string, m: string, lines: seq<string>, f: string -> Option<string>)
    ensures (forall i :: 0 <= i < |lines| ==> f(lines[i]).None?) ==> Located(p, m, FirstField(lines, f)) == Ok((p, m, -1))
    ensures Located(p, m, FirstField(lines, f)).Raise? ==> Located(p, m, FirstField(lines, f)).error == ValueError
    ensures forall i :: 0 <= i < |lines| && f(lines[i]).Some? && (forall j :: 0 <= j < i ==> f(lines[j]).None?) ==>
      var number := ParseInt(f(lines[i]).value);
      (Located(p, m, FirstField(lines, f)).Ok? <==> number.Ok?)
      && (number.Ok? ==> Located(p, m, FirstField(lines, f)).value == (p, m, number.value))
  {
    FirstFieldIsFirst(lines, f);
    forall i | 0 <= i < |lines| && f(lines[i]).Some? && (forall j :: 0 <= j < i ==> f(lines[j]).None?)
      ensures FirstField(lines, f) == f(lines[i])
    {
      var i' :| 0 <= i' < |lines| && FirstField(lines, f) == f(lines[i'])
        && forall j :: 0 <= j < i' ==> f(lines[j]).None?;
      assert i' == i;
    }
  }

  /** The tests of the loop body on one line: the text after the first `:` between the
      parentheses of a frame line of the test. */
  method FrameLineNumber(line: string, dotted: string) returns (field: Option<string>)
    ensures field == FrameField(dotted)(line)
  {
    field := None;
    if StartsWith(Strip(line), FrameMark) && Contains(line, dotted) {
      if '(' in line && ')' in line {
        SplitAtPresentChar(line, '(');
        var fileLinePart := Split(Split(line, "(")[1], ")")[0];
        if ':' in fileLinePart {
          SplitAtPresentChar(fileLinePart, ':');
          field := Some(Split(fileLinePart, ":")[1]);
        }
      }
    }
  }

  /** `get_failing_test_method_and_line`, as written: a scan over the lines with an early return
      at the first frame line of the test that carries a line number. */
  method GetFailingTestMethodAndLine(test: string, testInfo: string) returns (r: Result<(string, string, int)>)
    ensures r == MethodAndLine(test, testInfo)
  {
    var parts := Split(test, MemberSeparator);
    MethodAndLineParts(test, testInfo);
    if |parts| != 2 {
      return Ok(("", "", 0));
    }
    var dotted := Replace(test, MemberSeparator, ".");
    var lines := Split(testInfo, "\n");
    r := LocateInLines(parts[0], parts[1], lines, dotted);
  }

  /** The loop of `get_failing_test_method_and_line` over the lines of the test's information. */
  method LocateInLines(packagePath: string, methodName: string, lines: seq<string>, dotted: string)
    returns (r: Result<(string, string, int)>)
    ensures r == Located(packagePath, methodName, FirstField(lines, FrameField(dotted)))
  {
    ghost var f := FrameField(dotted);
    for i := 0 to |lines|
      invariant FirstField(lines[i..], f) == FirstField(lines, f)
    {
      assert lines[i..][0] == lines[i] && lines[i..][1..] == lines[i + 1..];
      var field := FrameLineNumber(lines[i], dotted);
      if field.Some? {
        var lineNumber := ParseInt(field.value);
        match lineNumber {
          case Raise(e) => return Raise(e);
          case Ok(n) => return Ok((packagePath, methodName, n));
        }
      }
    }
    assert lines[|lines|..] == [];
    return Ok((packagePath, methodName, -1));
  }
}
