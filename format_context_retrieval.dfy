/** The context report of the bug-context pipeline: one numbered block per bug location, across
    all files, and the call-graph section built from a Joern session. */
module FormatContextRetrieval {
  import opened Outcomes
  import opened Text
  import opened Numerals
  import opened JsonValues
  import opened Syntax
  import opened RetrievalUtils
  import opened IsolateBug
  import opened JoernCallgraph

  /** The defaults of the `JOERN_EXECUTABLE` and `JOERN_DIRECTORY` environment variables. */
  const JoernExecutable := "/usr/local/bin/joern"
  const JoernDirectory := "/usr/local/share/joern"

  /** The project whose graph the call-graph section loads. */
  const CallgraphProject := "test_program"

  /** One input item: a file path and the bug locations in that file. */
  type FileBugs = (string, seq<LineRange>)

  /** `str()` of a `(start, end)` tuple. */
  function RangeText(loc: LineRange): string {
    PairToString(loc.start, loc.end)
  }

  /** `str()` of what `retrieve_code_by_line_number` returned. */
  function BugCodeText(lines: BugCode): string {
    match lines
    case Code(text) => text
    case NoCode => "[]"
  }

  /** The label of the comments field, and its text when no comment precedes the node. */
  const CommentsLabel := "Comments before buggy node: "
  const NoComments := "No comments found"

  /** The first two lines of a block: the bug's number and its file. */
  function BlockTitle(n: int, path: string): string {
    "Bug #" + IntToString(n) + ":\n" + "File path: " + path + "\n"
  }

  /** The labelled fields both assemblers emit first, in order. `Bug lines:` adds no line break
      of its own. */
  function BlockHead(n: int, path: string, loc: LineRange, lines: BugCode, span: LineRange, nodeText: string): (r: string)
    ensures StartsWith(r, BlockTitle(n, path))
    ensures EndsWith(r, "Buggy node: " + nodeText + "\n")
  {
    var head := BlockTitle(n, path);
    HeadStays(head, "Bug line number(s): ", RangeText(loc), "\n", "Bug lines: ", BugCodeText(lines),
              "Buggy node line number(s): ", RangeText(span), "\n", "Buggy node: ", nodeText, "\n");
    EndsWithLastThree(head + "Bug line number(s): " + RangeText(loc) + "\n" + "Bug lines: " + BugCodeText(lines)
                      + "Buggy node line number(s): " + RangeText(span) + "\n", "Buggy node: ", nodeText, "\n");
    "Bug #" + IntToString(n) + ":\n"
    + "File path: " + path + "\n"
    + "Bug line number(s): " + RangeText(loc) + "\n"
    + "Bug lines: " + BugCodeText(lines)
    + "Buggy node line number(s): " + RangeText(span) + "\n"
    + "Buggy node: " + nodeText + "\n"
  }

  lemma HeadStays(h: string, a1: string, a2: string, a3: string, a4: string, a5: string, a6: string,
                  a7: string, a8: string, a9: string, a10: string, a11: string)
    ensures StartsWith(h + a1 + a2 + a3 + a4 + a5 + a6 + a7 + a8 + a9 + a10 + a11, h)
  {
    Framed(h, a1 + a2 + a3 + a4 + a5 + a6 + a7 + a8 + a9 + a10 + a11, "");
    assert h + a1 + a2 + a3 + a4 + a5 + a6 + a7 + a8 + a9 + a10 + a11
      == h + (a1 + a2 + a3 + a4 + a5 + a6 + a7 + a8 + a9 + a10 + a11) + "";
  }

  lemma EndsWithLastThree(x: string, t1: string, t2: string, t3: string)
    ensures EndsWith(x + t1 + t2 + t3, t1 + t2 + t3)
  {
    Framed(x, t1 + t2 + t3, "");
    assert (x + t1 + t2 + t3)[|x|..] == t1 + t2 + t3;
  }

  /** The text of the comment before the argument, or `No comments found`. */
  function CommentsText(fs: FileSystem, path: string, scope: Scope): Result<string> {
    if path !in fs then Ok(NoComments)
    else
      match CommentBefore(fs, path, scope)
      case None => Ok(NoComments)
      case Some(comment) => GetNodeText(comment, fs[path].code)
  }

  /** Renders bug `n`, at a location of a file, or says which exception stops the report. */
  type Renderer = (string, int, LineRange) -> Result<string>

  /** `acc` followed by the text of `r`, unless `r` is an exception. */
  function Prepend(acc: string, r: Result<string>): Result<string> {
    match r
    case Raise(e) => Raise(e)
    case Ok(s) => Ok(acc + s)
  }

  /** The text of `first` followed by the text of `rest`; the first exception wins. */
  function Then(first: Result<string>, rest: Result<string>): Result<string> {
    match first
    case Raise(e) => Raise(e)
    case Ok(a) => Prepend(a, rest)
  }

  lemma ThenAssociates(a: Result<string>, b: Result<string>, c: Result<string>)
    ensures Then(Then(a, b), c) == Then(a, Then(b, c))
  {
    if a.Ok? && b.Ok? && c.Ok? {
      assert a.value + b.value + c.value == a.value + (b.value + c.value);
    }
  }

  /** The blocks of one file's bug locations, numbered from `n`. */
  function FileBlocks(render: Renderer, path: string, locs: seq<LineRange>, n: int): Result<string>
    decreases |locs|
  {
    if locs == [] then Ok("")
    else Then(render(path, n, locs[0]), FileBlocks(render, path, locs[1..], n + 1))
  }

  /** The report over all files, numbering bugs from `n` and continuing across files; opening a
      missing file raises. */
  function Report(fs: FileSystem, render: Renderer, files: seq<FileBugs>, n: int): (r: Result<string>)
    ensures r.Ok? ==> forall i :: 0 <= i < |files| ==> files[i].0 in fs
    decreases |files|
  {
    if files == [] then Ok("")
    else if files[0].0 !in fs then Raise(FileNotFoundError)
    else Then(FileBlocks(render, files[0].0, files[0].1, n), Report(fs, render, files[1..], n + |files[0].1|))
  }

  /** The locations of one file, each paired with the file. */
  function Tagged(path: string, locs: seq<LineRange>): (r: seq<(string, LineRange)>)
    ensures |r| == |locs|
  {
    seq(|locs|, k requires 0 <= k < |locs| => (path, locs[k]))
  }

  /** Every bug location of every file, in input order. */
  function AllBugs(files: seq<FileBugs>): seq<(string, LineRange)>
    decreases |files|
  {
    if files == [] then [] else Tagged(files[0].0, files[0].1) + AllBugs(files[1..])
  }

  /** The reference numbering: the bug at position `k` of the flat list gets number `n + k`. */
  function NumberedBlocks(render: Renderer, bugs: seq<(string, LineRange)>, n: int): Result<string>
    decreases |bugs|
  {
    if bugs == [] then Ok("")
    else Then(render(bugs[0].0, n, bugs[0].1), NumberedBlocks(render, bugs[1..], n + 1))
  }

  lemma {:induction false} NumberedBlocksOfConcat(render: Renderer, a: seq<(string, LineRange)>,
                                                  b: seq<(string, LineRange)>, n: int)
    ensures NumberedBlocks(render, a + b, n) == Then(NumberedBlocks(render, a, n), NumberedBlocks(render, b, n + |a|))
    decreases |a|
  {
    if a == [] {
      assert a + b == b;
      var r := NumberedBlocks(render, b, n);
      if r.Ok? {
        assert "" + r.value == r.value;
      }
    } else {
      assert (a + b)[0] == a[0];
      assert (a + b)[1..] == a[1..] + b;
      NumberedBlocksOfConcat(render, a[1..], b, n + 1);
      ThenAssociates(render(a[0].0, n, a[0].1), NumberedBlocks(render, a[1..], n + 1),
                     NumberedBlocks(render, b, n + |a|));
    }
  }

  lemma {:induction false} FileBlocksAreNumbered(render: Renderer, path: string, locs: seq<LineRange>, n: int)
    ensures FileBlocks(render, path, locs, n) == NumberedBlocks(render, Tagged(path, locs), n)
    decreases |locs|
  {
    if locs != [] {
      FileBlocksAreNumbered(render, path, locs[1..], n + 1);
      assert Tagged(path, locs)[1..] == Tagged(path, locs[1..]);
    }
  }

  /** Numbering starts at `n` and goes up by one per bug location, continuing from one file to
      the next: when every file exists, the report is the flat list of blocks numbered `n`,
      `n + 1`, ... */
  lemma {:induction false} ReportNumbersBugsConsecutively(fs: FileSystem, render: Renderer, files: seq<FileBugs>, n: int)
    requires forall i :: 0 <= i < |files| ==> files[i].0 in fs
    ensures Report(fs, render, files, n) == NumberedBlocks(render, AllBugs(files), n)
    decreases |files|
  {
    if files != [] {
      var path, locs := files[0].0, files[0].1;
      assert forall i :: 0 <= i < |files[1..]| ==> files[1..][i] == files[i + 1];
      ReportNumbersBugsConsecutively(fs, render, files[1..], n + |locs|);
      FileBlocksAreNumbered(render, path, locs, n);
      NumberedBlocksOfConcat(render, Tagged(path, locs), AllBugs(files[1..]), n);
    }
  }

  /** The first file that cannot be opened stops the report with `FileNotFoundError`, whatever
      the files before it hold. */
  lemma MissingFileAborts(fs: FileSystem, render: Renderer, files: seq<FileBugs>, n: int, m: nat)
    requires m < |files| && files[m].0 !in fs
    ensures Report(fs, render, files, n).Raise?
  {
  }

  /** The block `format_info` renders for one location. A location no declaration encloses makes
      the unpacking raise `TypeError`. */
  function InfoBlock(fs: FileSystem, path: string, n: int, loc: LineRange): (r: Result<string>)
    ensures r.Raise? ==> r.error == FileNotFoundError || r.error == TypeError || r.error == UnicodeDecodeError
    ensures r == Raise(FileNotFoundError) <==> path !in fs
    ensures r.Ok? ==> path in fs && EntryFor(fs, path, loc).node.Some? && StartsWith(r.value, BlockTitle(n, path))
  {
    if path !in fs then Raise(FileNotFoundError)
    else
      var e := EntryFor(fs, path, loc);
      match e.node
      case None => Raise(TypeError)
      case Some((span, node)) =>
        match GetNodeText(node, fs[path].code)
        case Raise(x) => Raise(x)
        case Ok(nodeText) =>
          match CommentsText(fs, path, NodeScope(node))
          case Raise(x) => Raise(x)
          case Ok(comments) =>
            var head := BlockHead(n, path, loc, e.lines, span, nodeText);
            StartsWithThen(head, BlockTitle(n, path), CommentsLabel);
            StartsWithThen(head + CommentsLabel, BlockTitle(n, path), comments);
            StartsWithThen(head + CommentsLabel + comments, BlockTitle(n, path), "\n");
            StartsWithThen(head + CommentsLabel + comments + "\n", BlockTitle(n, path), "\n");
            Ok(head + CommentsLabel + comments + "\n" + "\n")
  }

  function InfoRenderer(fs: FileSystem): Renderer {
    (path, n, loc) => InfoBlock(fs, path, n, loc)
  }

  /** `render` renders every location as `format_info` does. The trigger keeps the verifier from
      expanding a block wherever the renderer is applied. */
  ghost predicate RendersInfo(fs: FileSystem, render: Renderer) {
    forall path, n, loc {:trigger InfoBlock(fs, path, n, loc)} :: render(path, n, loc) == InfoBlock(fs, path, n, loc)
  }

  lemma InfoRendererRendersInfo(fs: FileSystem)
    ensures RendersInfo(fs, InfoRenderer(fs))
  {
  }

  lemma Regroup(p: string, a: string, b: string, c: string, d1: string, d2: string, d3: string, d4: string, d5: string)
    ensures p + a + b + c + d1 + d2 + d3 + d4 + d5 == p + (a + b + c) + (d1 + d2 + d3 + d4 + d5)
  {
  }

  lemma EmptyBugLinesField()
    ensures "Bug lines: " + BugCodeText(NoCode) + "Buggy node line number(s): " == "Bug lines: []Buggy node line number(s): "
  {
    assert BugCodeText(NoCode) == "[]";
  }

  /** An invalid range renders as `[]` with the next label right after it. */
  lemma InvalidRangeRunsIntoNextLabel(n: int, path: string, loc: LineRange, span: LineRange, nodeText: string)
    ensures Contains(BlockHead(n, path, loc, NoCode, span, nodeText), "Bug lines: []Buggy node line number(s): ")
  {
    var prefix := "Bug #" + IntToString(n) + ":\n" + "File path: " + path + "\n" + "Bug line number(s): "
      + RangeText(loc) + "\n";
    var rest := RangeText(span) + "\n" + "Buggy node: " + nodeText + "\n";
    Regroup(prefix, "Bug lines: ", BugCodeText(NoCode), "Buggy node line number(s): ", RangeText(span), "\n",
            "Buggy node: ", nodeText, "\n");
    EmptyBugLinesField();
    ContainsMiddle(prefix, "Bug lines: []Buggy node line number(s): ", rest);
  }

  /** Every block of a successful flat report rendered successfully. */
  lemma {:induction false} NumberedBlocksOk(render: Renderer, bugs: seq<(string, LineRange)>, n: int)
    requires NumberedBlocks(render, bugs, n).Ok?
    ensures forall k :: 0 <= k < |bugs| ==> render(bugs[k].0, n + k, bugs[k].1).Ok?
    decreases |bugs|
  {
    if bugs != [] {
      NumberedBlocksOk(render, bugs[1..], n + 1);
      assert forall k :: 1 <= k < |bugs| ==> bugs[k] == bugs[1..][k - 1];
    }
  }

  /** A block renders only for a location that lies within a declaration. */
  lemma InfoBlockOkResolves(fs: FileSystem, path: string, n: int, loc: LineRange)
    requires InfoBlock(fs, path, n, loc).Ok?
    ensures path in fs && BuggyNode(fs, path, loc).Some?
  {
  }

  /** A report is produced only if every file exists and every bug location lies within a
      declaration: there is no partial block. */
  lemma ReportOkMeansAllResolved(fs: FileSystem, render: Renderer, files: seq<FileBugs>, n: int)
    requires RendersInfo(fs, render) && Report(fs, render, files, n).Ok?
    ensures forall i :: 0 <= i < |files| ==> files[i].0 in fs
    ensures forall b :: b in AllBugs(files) ==> BuggyNode(fs, b.0, b.1).Some?
  {
    ReportNumbersBugsConsecutively(fs, render, files, n);
    var bugs := AllBugs(files);
    NumberedBlocksOk(render, bugs, n);
    forall b | b in bugs
      ensures BuggyNode(fs, b.0, b.1).Some?
    {
      var k :| 0 <= k < |bugs| && bugs[k] == b;
      assert render(b.0, n + k, b.1).Ok?;
      assert InfoBlock(fs, b.0, n + k, b.1).Ok?;
      InfoBlockOkResolves(fs, b.0, n + k, b.1);
    }
  }

  /** The block of one entry, computed as `format_info` does it. */
  method RenderInfoBlock(fs: FileSystem, path: string, n: int, bug: BuggyEntry) returns (r: Result<string>)
    requires path in fs && bug == EntryFor(fs, path, bug.location)
    ensures r == InfoBlock(fs, path, n, bug.location)
  {
    var code := fs[path].code;
    if bug.node.None? {
      return Raise(TypeError);
    }
    var span, node := bug.node.value.0, bug.node.value.1;
    var comment := GetCommentsBeforeNode(fs, path, NodeScope(node));
    var nodeText := GetNodeText(node, code);
    if nodeText.Raise? {
      return Raise(nodeText.error);
    }
    var commentsText := NoComments;
    if comment.Some? {
      var text := GetNodeText(comment.value, code);
      if text.Raise? {
        return Raise(text.error);
      }
      commentsText := text.value;
    }
    var block := "Bug #" + IntToString(n) + ":\n";
    block := block + "File path: " + path + "\n";
    block := block + "Bug line number(s): " + RangeText(bug.location) + "\n";
    block := block + "Bug lines: " + BugCodeText(bug.lines);
    block := block + "Buggy node line number(s): " + RangeText(span) + "\n";
    block := block + "Buggy node: " + nodeText.value + "\n";
    block := block + CommentsLabel + commentsText + "\n";
    block := block + "\n";
    assert block == BlockHead(n, path, bug.location, bug.lines, span, nodeText.value)
      + CommentsLabel + commentsText + "\n" + "\n";
    return Ok(block);
  }

  lemma PrependPrepend(a: string, b: string, r: Result<string>)
    ensures Prepend(a, Prepend(b, r)) == Prepend(a + b, r)
  {
    if r.Ok? {
      assert a + (b + r.value) == a + b + r.value;
    }
  }

  lemma ThenEmpty(r: Result<string>)
    ensures Then(Ok(""), r) == r
  {
    if r.Ok? {
      assert "" + r.value == r.value;
    }
  }

  lemma ReportOfFirstFile(fs: FileSystem, render: Renderer, files: seq<FileBugs>, i: nat, n: int)
    requires i < |files| && files[i].0 in fs
    ensures Report(fs, render, files[i..], n)
      == Then(FileBlocks(render, files[i].0, files[i].1, n), Report(fs, render, files[i + 1..], n + |files[i].1|))
  {
    assert files[i..][0] == files[i];
    assert files[i..][1..] == files[i + 1..];
  }

  lemma ReportOfMissingFile(fs: FileSystem, render: Renderer, files: seq<FileBugs>, i: nat, n: int)
    requires i < |files| && files[i].0 !in fs
    ensures Report(fs, render, files[i..], n) == Raise(FileNotFoundError)
  {
    assert files[i..][0] == files[i];
  }

  lemma FileBlocksFrom(render: Renderer, path: string, locs: seq<LineRange>, j: nat, n: int)
    requires j < |locs|
    ensures FileBlocks(render, path, locs[j..], n)
      == Then(render(path, n, locs[j]), FileBlocks(render, path, locs[j + 1..], n + 1))
  {
    assert locs[j..][0] == locs[j];
    assert locs[j..][1..] == locs[j + 1..];
  }

  /** The body of `format_info`'s loop over files: the entries of one file and their blocks,
      numbered from `n`. */
  method FormatFileBlocks(fs: FileSystem, path: string, locs: seq<LineRange>, n: int, ghost render: Renderer)
    returns (r: Result<string>)
    requires path in fs && RendersInfo(fs, render)
    ensures r == FileBlocks(render, path, locs, n)
  {
    var bugs := RetrieveBuggyLinesAndNode(fs, path, locs);
    var result := "";
    var bugNumber := n;
    assert locs[0..] == locs;
    ThenEmpty(FileBlocks(render, path, locs, n));
    for j := 0 to |bugs|
      invariant bugNumber == n + j
      invariant FileBlocks(render, path, locs, n) == Prepend(result, FileBlocks(render, path, locs[j..], bugNumber))
    {
      FileBlocksFrom(render, path, locs, j, bugNumber);
      var block := RenderInfoBlock(fs, path, bugNumber, bugs[j]);
      assert render(path, bugNumber, locs[j]) == block;
      if block.Raise? {
        return Raise(block.error);
      }
      PrependPrepend(result, block.value, FileBlocks(render, path, locs[j + 1..], bugNumber + 1));
      result := result + block.value;
      bugNumber := bugNumber + 1;
    }
    assert locs[|locs|..] == [];
    assert result + "" == result;
    return Ok(result);
  }

  /** `format_info`, specified in terms of any renderer that renders the blocks as it does (such
      as `InfoRenderer(fs)`). */
  method FormatInfo(fs: FileSystem, files: seq<FileBugs>, ghost render: Renderer) returns (r: Result<string>)
    requires RendersInfo(fs, render)
    ensures r == Report(fs, render, files, 1)
  {
    var result := "";
    var bugNumber := 1;
    assert files[0..] == files;
    ThenEmpty(Report(fs, render, files, 1));
    for i := 0 to |files|
      invariant Report(fs, render, files, 1) == Prepend(result, Report(fs, render, files[i..], bugNumber))
    {
      var path, locs := files[i].0, files[i].1;
      if path !in fs {
        ReportOfMissingFile(fs, render, files, i, bugNumber);
        return Raise(FileNotFoundError);
      }
      ReportOfFirstFile(fs, render, files, i, bugNumber);
      var blocks := FormatFileBlocks(fs, path, locs, bugNumber, render);
      if blocks.Raise? {
        return Raise(blocks.error);
      }
      PrependPrepend(result, blocks.value, Report(fs, render, files[i + 1..], bugNumber + |locs|));
      assert Prepend(result, Report(fs, render, files[i..], bugNumber))
        == Prepend(result + blocks.value, Report(fs, render, files[i + 1..], bugNumber + |locs|));
      result := result + blocks.value;
      bugNumber := bugNumber + |locs|;
    }
    assert files[|files|..] == [];
    assert result + "" == result;
    return Ok(result);
  }

  /** One line of the callers list. */
  function CallerEntry(c: Caller): string {
    "    - Line " + Str(c.line) + ": " + c.text
  }

  /** One line of the callees list. */
  function CalleeEntry(c: Callee): string {
    "    - \"" + Str(c.name) + "\" method called at line " + Str(c.line) + ": " + c.text
  }

  /** One line per caller, in order. */
  function CallerEntries(cs: seq<Caller>): (r: seq<string>)
    ensures |r| == |cs|
    decreases |cs|
  {
    if cs == [] then [] else CallerEntries(cs[..|cs| - 1]) + [CallerEntry(cs[|cs| - 1])]
  }

  /** One line per callee, in order. */
  function CalleeEntries(cs: seq<Callee>): (r: seq<string>)
    ensures |r| == |cs|
    decreases |cs|
  {
    if cs == [] then [] else CalleeEntries(cs[..|cs| - 1]) + [CalleeEntry(cs[|cs| - 1])]
  }

  lemma {:induction false} CallerEntriesAt(cs: seq<Caller>, i: nat)
    requires i < |cs|
    ensures CallerEntries(cs)[i] == CallerEntry(cs[i])
    decreases |cs|
  {
    if i < |cs| - 1 {
      assert cs[..|cs| - 1][i] == cs[i];
      CallerEntriesAt(cs[..|cs| - 1], i);
    }
  }

  lemma {:induction false} CalleeEntriesAt(cs: seq<Callee>, i: nat)
    requires i < |cs|
    ensures CalleeEntries(cs)[i] == CalleeEntry(cs[i])
    decreases |cs|
  {
    if i < |cs| - 1 {
      assert cs[..|cs| - 1][i] == cs[i];
      CalleeEntriesAt(cs[..|cs| - 1], i);
    }
  }

  const LoadError := "Error: Could not load CPG"
  const CallersHeader := "Caller(s) of function:"
  const CalleesHeader := "Callee(s) of function:"

  /** The call-graph section for the given callers and callees: a header, one line per caller,
      a header, one line per callee. */
  function CallgraphText(callers: seq<Caller>, callees: seq<Callee>): (r: string)
    ensures StartsWith(r, CallersHeader + "\n")
    ensures Contains(r, CalleesHeader + "\n")
  {
    var h, x := CallersHeader + "\n", Terminated(CallerEntries(callers));
    var k, y := CalleesHeader + "\n", Terminated(CalleeEntries(callees));
    ContainsMiddle(h + x, k, y);
    Framed(h, x + k, y);
    SeqAssociates(h, x, k);
    CallersHeader + "\n" + Terminated(CallerEntries(callers)) + (CalleesHeader + "\n") + Terminated(CalleeEntries(callees))
  }

  /** What `format_callgraph_info` returns: the load error, or the callers then the callees a
      session on `test_program` reports. */
  function CallgraphReport(path: string, loc: LineRange, existing: set<string>, engine: Engine, decode: Decoder,
                           fs: FileSystem): (r: string)
    ensures r == LoadError <==> CpgPath(JoernDirectory, CallgraphProject) !in existing
  {
    if CpgPath(JoernDirectory, CallgraphProject) !in existing then LoadError
    else
      var r := CallgraphText(SessionCallers(JoernDirectory, CallgraphProject, path, loc, engine, decode, fs),
                             SessionCallees(JoernDirectory, CallgraphProject, path, loc, engine, decode, fs));
      assert r[0] == CallersHeader[0] != LoadError[0];
      r
  }

  /** The section has one line per caller and one per callee under their two headers, given
      that no entry holds a line break. */
  lemma CallgraphTextLines(callers: seq<Caller>, callees: seq<Callee>)
    requires forall i :: 0 <= i < |callers| ==> '\n' !in CallerEntry(callers[i])
    requires forall i :: 0 <= i < |callees| ==> '\n' !in CalleeEntry(callees[i])
    ensures Split(CallgraphText(callers, callees), "\n")
      == [CallersHeader] + CallerEntries(callers) + [CalleesHeader] + CalleeEntries(callees) + [""]
  {
    CallerLinesUnbroken(callers);
    CalleeLinesUnbroken(callees);
    HeadersUnbroken();
    SplitHeadedLists(CallersHeader, CallerEntries(callers), CalleesHeader, CalleeEntries(callees));
  }

  lemma HeadersUnbroken()
    ensures '\n' !in CallersHeader && '\n' !in CalleesHeader
  {
  }

  lemma CallerLinesUnbroken(callers: seq<Caller>)
    requires forall i :: 0 <= i < |callers| ==> '\n' !in CallerEntry(callers[i])
    ensures forall i :: 0 <= i < |CallerEntries(callers)| ==> '\n' !in CallerEntries(callers)[i]
  {
    forall i | 0 <= i < |callers|
      ensures '\n' !in CallerEntries(callers)[i]
    {
      CallerEntriesAt(callers, i);
    }
  }

  lemma CalleeLinesUnbroken(callees: seq<Callee>)
    requires forall i :: 0 <= i < |callees| ==> '\n' !in CalleeEntry(callees[i])
    ensures forall i :: 0 <= i < |CalleeEntries(callees)| ==> '\n' !in CalleeEntries(callees)[i]
  {
    forall i | 0 <= i < |callees|
      ensures '\n' !in CalleeEntries(callees)[i]
    {
      CalleeEntriesAt(callees, i);
    }
  }

  /** The loop of `format_callgraph_info` over the callers: one terminated line each. */
  method RenderCallers(cs: seq<Caller>) returns (r: string)
    ensures r == Terminated(CallerEntries(cs))
  {
    r := "";
    for i := 0 to |cs|
      invariant r == Terminated(CallerEntries(cs[..i]))
    {
      assert cs[..i + 1][..i] == cs[..i];
      TerminatedAppend(CallerEntries(cs[..i]), CallerEntry(cs[i]));
      r := r + CallerEntry(cs[i]) + "\n";
    }
    assert cs[..|cs|] == cs;
  }

  /** The loop of `format_callgraph_info` over the callees: one terminated line each. */
  method RenderCallees(es: seq<Callee>) returns (r: string)
    ensures r == Terminated(CalleeEntries(es))
  {
    r := "";
    for j := 0 to |es|
      invariant r == Terminated(CalleeEntries(es[..j]))
    {
      assert es[..j + 1][..j] == es[..j];
      TerminatedAppend(CalleeEntries(es[..j]), CalleeEntry(es[j]));
      r := r + CalleeEntry(es[j]) + "\n";
    }
    assert es[..|es|] == es;
  }

  /** `format_callgraph_info`: a fresh session loads `test_program`, then lists the callers and
      the callees of the bug location. */
  method FormatCallgraphInfo(path: string, loc: LineRange, existing: set<string>, engine: Engine, decode: Decoder,
                             fs: FileSystem) returns (r: string)
    ensures r == CallgraphReport(path, loc, existing, engine, decode, fs)
  {
    var session := new JoernSession(path, JoernExecutable, JoernDirectory);
    var loaded := session.LoadCpg(CallgraphProject, existing);
    if !loaded {
      return LoadError;
    }
    var result := CallersHeader + "\n";
    var callers := session.GetFunctionCallers(loc, engine, decode, fs);
    var callerLines := RenderCallers(callers.value);
    result := result + callerLines;
    result := result + (CalleesHeader + "\n");
    var callees := session.GetCalleesInLineRange(loc, engine, decode, fs);
    var calleeLines := RenderCallees(callees.value);
    result := result + calleeLines;
    return result;
  }
}
