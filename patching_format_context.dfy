/** The context report of the patching agents: the labelled fields of every bug location, numbered
    across files as in the bug-context report, followed by extra sections that depend on the
    context type. The "context retrieval" section is modelled twice: as the program has it, where
    it always raises, and as it is evidently meant to work. */
module PatchingFormatContext {
  import opened Outcomes
  import opened Text
  import opened Numerals
  import opened JsonValues
  import opened Syntax
  import opened RetrievalUtils
  import opened IsolateBug
  import opened JoernCallgraph
  import opened FormatContextRetrieval

  const ContextRetrieval := "context retrieval"
  const ApiDatabaseRetrieval := "api database retrieval"

  /** What a call-graph section needs from outside: which graph files exist, the Joern process,
      and the JSON decoder. */
  datatype Joern = Joern(existing: set<string>, engine: Engine, decode: Decoder)

  /** The call-graph section for a location, as `format_callgraph_info` renders it. */
  function CallgraphSection(fs: FileSystem, joern: Joern, path: string, loc: LineRange): string {
    CallgraphReport(path, loc, joern.existing, joern.engine, joern.decode, fs)
  }

  /** Calling `format_ddg_info` with `arity` arguments: the function takes none, so any argument
      raises `TypeError`; called correctly its placeholder body returns `None`. */
  function FormatDdgInfo(arity: nat): (r: Result<Option<string>>)
    ensures r.Ok? <==> arity == 0
    ensures r.Raise? ==> r.error == TypeError
    ensures r.Ok? ==> r.value == None
  {
    if arity != 0 then Raise(TypeError) else Ok(None)
  }

  /** `acc += x`: adding `None` to a string raises `TypeError`. */
  function AddText(acc: string, x: Option<string>): Result<string> {
    match x
    case None => Raise(TypeError)
    case Some(t) => Ok(acc + t)
  }

  /** `format_context_retrieval` as written: the comments line and the call-graph section, then
      `format_ddg_info` called with the file path and the location. */
  function ContextSectionAsWritten(comments: string, callgraph: string): (r: Result<string>)
    ensures r.Raise? ==> r.error == TypeError
  {
    var acc := CommentsLabel + comments + "\n" + callgraph;
    match FormatDdgInfo(2)
    case Raise(e) => Raise(e)
    case Ok(ddg) => AddText(acc, ddg)
  }

  /** The section never renders: the call raises before anything is returned. */
  lemma ContextSectionAlwaysRaises(comments: string, callgraph: string)
    ensures ContextSectionAsWritten(comments, callgraph) == Raise(TypeError)
  {
  }

  /** Passing no arguments does not help either: adding the placeholder's `None` raises too. */
  lemma PlaceholderDdgRaises(acc: string)
    ensures FormatDdgInfo(0).Ok? && AddText(acc, FormatDdgInfo(0).value) == Raise(TypeError)
  {
  }

  /** The section as it is evidently meant to be: the comments line, then the call-graph section;
      the data-dependence part is a placeholder and contributes no text. */
  function ContextSectionCorrected(comments: string, callgraph: string): string {
    CommentsLabel + comments + "\n" + callgraph
  }

  /** The block `format_context` renders for one location, as written. The node is replaced by
      its text before the comment lookup, and in the "context retrieval" case the section raises.
      Any other context type adds nothing to the fields. */
  function PatchBlock(fs: FileSystem, contextType: string, joern: Joern, path: string, n: int, loc: LineRange)
    : (r: Result<string>)
    ensures r.Raise? ==> r.error == FileNotFoundError || r.error == TypeError || r.error == UnicodeDecodeError
    ensures r == Raise(FileNotFoundError) <==> path !in fs
    ensures r.Ok? ==> path in fs && EntryFor(fs, path, loc).node.Some? && StartsWith(r.value, BlockTitle(n, path))
  {
    if path !in fs then Raise(FileNotFoundError)
    else
      var e := EntryFor(fs, path, loc);
      match e.node
      case None => Raise(TypeError)
      case Some((span, node)) =>
        match GetNodeText(node, fs[path].code)
        case Raise(x) => Raise(x)
        case Ok(nodeText) =>
          var head := BlockHead(n, path, loc, e.lines, span, nodeText);
          if contextType == ContextRetrieval then
            match CommentsText(fs, path, TextScope(nodeText))
            case Raise(x) => Raise(x)
            case Ok(comments) =>
              match ContextSectionAsWritten(comments, CallgraphSection(fs, joern, path, loc))
              case Raise(x) => Raise(x)
              case Ok(section) =>
                StartsWithThen(head, BlockTitle(n, path), section);
                StartsWithThen(head + section, BlockTitle(n, path), "\n");
                Ok(head + section + "\n")
          else StartsWithThen(head, BlockTitle(n, path), "\n"); Ok(head + "\n")
  }

  /** The block with both defects corrected: the comment lookup is given the node, and the
      section is the corrected one. */
  function PatchBlockCorrected(fs: FileSystem, contextType: string, joern: Joern, path: string, n: int,
                               loc: LineRange): (r: Result<string>)
    ensures r.Raise? ==> r.error == FileNotFoundError || r.error == TypeError || r.error == UnicodeDecodeError
    ensures r == Raise(FileNotFoundError) <==> path !in fs
    ensures r.Ok? ==> path in fs && EntryFor(fs, path, loc).node.Some? && StartsWith(r.value, BlockTitle(n, path))
  {
    if path !in fs then Raise(FileNotFoundError)
    else
      var e := EntryFor(fs, path, loc);
      match e.node
      case None => Raise(TypeError)
      case Some((span, node)) =>
        match GetNodeText(node, fs[path].code)
        case Raise(x) => Raise(x)
        case Ok(nodeText) =>
          var head := BlockHead(n, path, loc, e.lines, span, nodeText);
          if contextType == ContextRetrieval then
            match CommentsText(fs, path, NodeScope(node))
            case Raise(x) => Raise(x)
            case Ok(comments) =>
              var section := ContextSectionCorrected(comments, CallgraphSection(fs, joern, path, loc));
              StartsWithThen(head, BlockTitle(n, path), section);
              StartsWithThen(head + section, BlockTitle(n, path), "\n");
              Ok(head + section + "\n")
          else StartsWithThen(head, BlockTitle(n, path), "\n"); Ok(head + "\n")
  }

  function PatchRenderer(fs: FileSystem, contextType: string, joern: Joern): Renderer {
    (path, n, loc) => PatchBlock(fs, contextType, joern, path, n, loc)
  }

  function CorrectedRenderer(fs: FileSystem, contextType: string, joern: Joern): Renderer {
    (path, n, loc) => PatchBlockCorrected(fs, contextType, joern, path, n, loc)
  }

  /** `render` renders every location as `format_context` does. */
  ghost predicate RendersPatch(fs: FileSystem, contextType: string, joern: Joern, render: Renderer) {
    forall path, n, loc {:trigger PatchBlock(fs, contextType, joern, path, n, loc)} ::
      render(path, n, loc) == PatchBlock(fs, contextType, joern, path, n, loc)
  }

  lemma PatchRendererRendersPatch(fs: FileSystem, contextType: string, joern: Joern)
    ensures RendersPatch(fs, contextType, joern, PatchRenderer(fs, contextType, joern))
  {
  }

  /** Handed the text of the node, the comment lookup finds nothing: the comments are always
      `No comments found`. */
  lemma TextLookupFindsNoComment(fs: FileSystem, path: string, nodeText: string)
    requires path in fs
    ensures CommentsText(fs, path, TextScope(nodeText)) == Ok(NoComments)
  {
    TextScopeFindsNothing(fs, path, nodeText);
  }

  /** As written, a "context retrieval" block never renders. */
  lemma ContextRetrievalBlockRaises(fs: FileSystem, joern: Joern, path: string, n: int, loc: LineRange)
    ensures PatchBlock(fs, ContextRetrieval, joern, path, n, loc).Raise?
  {
    if path in fs {
      var e := EntryFor(fs, path, loc);
      if e.node.Some? {
        var node := e.node.value.1;
        var nodeText := GetNodeText(node, fs[path].code);
        if nodeText.Ok? {
          TextLookupFindsNoComment(fs, path, nodeText.value);
          ContextSectionAlwaysRaises(NoComments, CallgraphSection(fs, joern, path, loc));
        }
      }
    }
  }

  /** As written, a "context retrieval" report is produced only for input without any bug
      location. */
  lemma {:induction false} ContextRetrievalReportNeedsNoBugs(fs: FileSystem, joern: Joern, render: Renderer,
                                                             files: seq<FileBugs>, n: int)
    requires RendersPatch(fs, ContextRetrieval, joern, render)
    requires Report(fs, render, files, n).Ok?
    ensures AllBugs(files) == []
  {
    ReportNumbersBugsConsecutively(fs, render, files, n);
    var bugs := AllBugs(files);
    NumberedBlocksOk(render, bugs, n);
    if bugs != [] {
      assert render(bugs[0].0, n, bugs[0].1).Ok?;
      assert PatchBlock(fs, ContextRetrieval, joern, bugs[0].0, n, bugs[0].1).Ok?;
      ContextRetrievalBlockRaises(fs, joern, bugs[0].0, n, bugs[0].1);
    }
  }

  /** Only "context retrieval" changes the block; "api database retrieval" and every other type
      render the same fields. */
  lemma OtherContextsAddNothing(fs: FileSystem, t1: string, t2: string, joern: Joern, path: string, n: int,
                                loc: LineRange)
    requires t1 != ContextRetrieval && t2 != ContextRetrieval
    ensures PatchBlock(fs, t1, joern, path, n, loc) == PatchBlock(fs, t2, joern, path, n, loc)
  {
  }

  /** Outside "context retrieval" the block is the bug-context block up to its comments line: the
      same fields in the same order, then the closing blank line. */
  lemma PlainBlockIsInfoBlockWithoutComments(fs: FileSystem, contextType: string, joern: Joern, path: string,
                                             n: int, loc: LineRange)
    requires contextType != ContextRetrieval
    requires InfoBlock(fs, path, n, loc).Ok?
    ensures PatchBlock(fs, contextType, joern, path, n, loc).Ok?
    ensures exists head, comments :: PatchBlock(fs, contextType, joern, path, n, loc).value == head + "\n"
              && InfoBlock(fs, path, n, loc).value == head + CommentsLabel + comments + "\n" + "\n"
  {
    var e := EntryFor(fs, path, loc);
    var span, node := e.node.value.0, e.node.value.1;
    var nodeText := GetNodeText(node, fs[path].code).value;
    var head := BlockHead(n, path, loc, e.lines, span, nodeText);
    var comments := CommentsText(fs, path, NodeScope(node)).value;
    assert InfoBlock(fs, path, n, loc).value == head + CommentsLabel + comments + "\n" + "\n";
  }

  /** Corrected, a "context retrieval" block renders exactly when the bug-context block does, and
      it is that block with the call-graph section inserted before the closing blank line. */
  lemma CorrectedBlockExtendsInfoBlock(fs: FileSystem, joern: Joern, path: string, n: int, loc: LineRange)
    ensures PatchBlockCorrected(fs, ContextRetrieval, joern, path, n, loc).Ok? <==> InfoBlock(fs, path, n, loc).Ok?
    ensures InfoBlock(fs, path, n, loc).Ok? ==>
      var info := InfoBlock(fs, path, n, loc).value;
      |info| > 0 && info[|info| - 1] == '\n'
      && PatchBlockCorrected(fs, ContextRetrieval, joern, path, n, loc).value
         == info[..|info| - 1] + CallgraphSection(fs, joern, path, loc) + "\n"
  {
    if InfoBlock(fs, path, n, loc).Ok? {
      var e := EntryFor(fs, path, loc);
      var span, node := e.node.value.0, e.node.value.1;
      var nodeText := GetNodeText(node, fs[path].code).value;
      var head := BlockHead(n, path, loc, e.lines, span, nodeText);
      var comments := CommentsText(fs, path, NodeScope(node)).value;
      var callgraph := CallgraphSection(fs, joern, path, loc);
      assert InfoBlock(fs, path, n, loc).value == head + CommentsLabel + comments + "\n" + "\n";
      assert PatchBlockCorrected(fs, ContextRetrieval, joern, path, n, loc).value
        == head + ContextSectionCorrected(comments, callgraph) + "\n";
      InsertBeforeLast(head, comments, callgraph);
    }
  }

  lemma InsertBeforeLast(head: string, comments: string, callgraph: string)
    ensures var info := head + CommentsLabel + comments + "\n" + "\n";
      |info| > 0 && info[|info| - 1] == '\n'
      && head + ContextSectionCorrected(comments, callgraph) + "\n" == info[..|info| - 1] + callgraph + "\n"
  {
    var body := head + CommentsLabel + comments + "\n";
    var info := head + CommentsLabel + comments + "\n" + "\n";
    assert info == body + "\n";
    assert info[..|info| - 1] == body;
    assert head + ContextSectionCorrected(comments, callgraph) == body + callgraph;
  }

  /** `format_context_retrieval` as written, computed step by step: the call-graph section is
      rendered, then the call of the data-dependence helper raises. */
  method FormatContextSection(fs: FileSystem, joern: Joern, comments: string, path: string, loc: LineRange)
    returns (r: Result<string>)
    ensures r == ContextSectionAsWritten(comments, CallgraphSection(fs, joern, path, loc))
  {
    var result := CommentsLabel + comments + "\n";
    var callgraph := FormatCallgraphInfo(path, loc, joern.existing, joern.engine, joern.decode, fs);
    result := result + callgraph;
    match FormatDdgInfo(2) {
      case Raise(e) => r := Raise(e);
      case Ok(ddg) => r := AddText(result, ddg);
    }
  }

  /** The block of one entry, computed as `format_context` does it. */
  method RenderPatchBlock(fs: FileSystem, contextType: string, joern: Joern, path: string, n: int, bug: BuggyEntry)
    returns (r: Result<string>)
    requires path in fs && bug == EntryFor(fs, path, bug.location)
    ensures r == PatchBlock(fs, contextType, joern, path, n, bug.location)
  {
    var code := fs[path].code;
    if bug.node.None? {
      return Raise(TypeError);
    }
    var span, node := bug.node.value.0, bug.node.value.1;
    var nodeText := GetNodeText(node, code);
    if nodeText.Raise? {
      return Raise(nodeText.error);
    }
    var block := "Bug #" + IntToString(n) + ":\n";
    block := block + "File path: " + path + "\n";
    block := block + "Bug line number(s): " + RangeText(bug.location) + "\n";
    block := block + "Bug lines: " + BugCodeText(bug.lines);
    block := block + "Buggy node line number(s): " + RangeText(span) + "\n";
    block := block + "Buggy node: " + nodeText.value + "\n";
    assert block == BlockHead(n, path, bug.location, bug.lines, span, nodeText.value);
    if contextType == ContextRetrieval {
      var comment := GetCommentsBeforeNode(fs, path, TextScope(nodeText.value));
      var commentsText: Result<string>;
      var section: Result<string>;
      match comment {
        case None => commentsText := Ok(NoComments);
        case Some(c) => commentsText := GetNodeText(c, code);
      }
      match commentsText {
        case Raise(x) => section := Raise(x);
        case Ok(comments) => section := FormatContextSection(fs, joern, comments, path, bug.location);
      }
      r := Prepend(block, Then(section, Ok("\n")));
    } else {
      r := Ok(block + "\n");
    }
  }

  /** The body of `format_context`'s loop over files: the entries of one file and their blocks,
      numbered from `n`. */
  method FormatPatchFileBlocks(fs: FileSystem, contextType: string, joern: Joern, path: string,
                               locs: seq<LineRange>, n: int, ghost render: Renderer)
    returns (r: Result<string>)
    requires path in fs && RendersPatch(fs, contextType, joern, render)
    ensures r == FileBlocks(render, path, locs, n)
  {
    var bugs := RetrieveBuggyLinesAndNode(fs, path, locs);
    var result := "";
    var bugNumber := n;
    assert locs[0..] == locs;
    ThenEmpty(FileBlocks(render, path, locs, n));
    for j := 0 to |bugs|
      invariant bugNumber == n + j
      invariant FileBlocks(render, path, locs, n) == Prepend(result, FileBlocks(render, path, locs[j..], bugNumber))
    {
      FileBlocksFrom(render, path, locs, j, bugNumber);
      var block := RenderPatchBlock(fs, contextType, joern, path, bugNumber, bugs[j]);
      assert render(path, bugNumber, locs[j]) == block;
      if block.Raise? {
        return Raise(block.error);
      }
      PrependPrepend(result, block.value, FileBlocks(render, path, locs[j + 1..], bugNumber + 1));
      result := result + block.value;
      bugNumber := bugNumber + 1;
    }
    assert locs[|locs|..] == [];
    assert result + "" == result;
    return Ok(result);
  }

  /** `format_context`, specified in terms of any renderer that renders the blocks as it does
      (such as `PatchRenderer(fs, contextType, joern)`): bugs are numbered from 1 across files. */
  method FormatContext(fs: FileSystem, contextType: string, joern: Joern, files: seq<FileBugs>,
                       ghost render: Renderer) returns (r: Result<string>)
    requires RendersPatch(fs, contextType, joern, render)
    ensures r == Report(fs, render, files, 1)
  {
    var result := "";
    var bugNumber := 1;
    assert files[0..] == files;
    ThenEmpty(Report(fs, render, files, 1));
    for i := 0 to |files|
      invariant Report(fs, render, files, 1) == Prepend(result, Report(fs, render, files[i..], bugNumber))
    {
      var path, locs := files[i].0, files[i].1;
      if path !in fs {
        ReportOfMissingFile(fs, render, files, i, bugNumber);
        return Raise(FileNotFoundError);
      }
      ReportOfFirstFile(fs, render, files, i, bugNumber);
      var blocks := FormatPatchFileBlocks(fs, contextType, joern, path, locs, bugNumber, render);
      if blocks.Raise? {
        return Raise(blocks.error);
      }
      PrependPrepend(result, blocks.value, Report(fs, render, files[i + 1..], bugNumber + |locs|));
      assert Prepend(result, Report(fs, render, files[i..], bugNumber))
        == Prepend(result + blocks.value, Report(fs, render, files[i + 1..], bugNumber + |locs|));
      result := result + blocks.value;
      bugNumber := bugNumber + |locs|;
    }
    assert files[|files|..] == [];
    assert result + "" == result;
    return Ok(result);
  }
}
