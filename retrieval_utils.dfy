/** Text helpers over a source file: the text of a node, the text of a range of lines, the
    comment that immediately precedes a declaration, and the name of a method or constructor. */
module RetrievalUtils {
  import opened Outcomes
  import opened Text
  import opened Utf8
  import opened Syntax

  /** The bytes `code[node.start_byte:node.end_byte]`. */
  function NodeBytes(node: Node, code: seq<byte>): seq<byte> {
    Slice(code, node.startByte, node.endByte)
  }

  /** `get_node_text`: the node's bytes decoded as UTF-8; undecodable bytes raise. */
  function GetNodeText(node: Node, code: seq<byte>): (r: Result<string>)
    ensures r.Ok? <==> Decode(NodeBytes(node, code)).Some?
    ensures r.Ok? ==> Encode(r.value) == NodeBytes(node, code)
    ensures r.Raise? ==> r.error == UnicodeDecodeError
  {
    match Decode(NodeBytes(node, code))
    case None => Raise(UnicodeDecodeError)
    case Some(text) =>
      EncodeDecode(NodeBytes(node, code));
      Ok(text)
  }

  /** Text-mode reading turns `\r\n` and a lone `\r` into `\n`. */
  function TranslateNewlines(t: string): (r: string)
    ensures '\r' !in r
    decreases |t|
  {
    if t == [] then []
    else if t[0] == '\r' then
      if |t| > 1 && t[1] == '\n' then "\n" + TranslateNewlines(t[2..]) else "\n" + TranslateNewlines(t[1..])
    else [t[0]] + TranslateNewlines(t[1..])
  }

  /** The length of the first line of `t`, its newline included. */
  function FirstLineLength(t: string): (k: nat)
    requires t != []
    ensures 1 <= k <= |t|
    ensures '\n' !in t[..k - 1]
    ensures k < |t| ==> t[k - 1] == '\n'
    decreases |t|
  {
    if t[0] == '\n' || |t| == 1 then 1
    else
      var k := 1 + FirstLineLength(t[1..]);
      assert t[..k - 1] == [t[0]] + t[1..][..k - 2];
      k
  }

  /** `readlines()`: the lines of `t`, each keeping its newline. */
  function ReadLines(t: string): seq<string>
    decreases |t|
  {
    if t == [] then []
    else
      var k := FirstLineLength(t);
      [t[..k]] + ReadLines(t[k..])
  }

  /** The lines put back together are the text. */
  lemma {:induction false} ReadLinesConcat(t: string)
    ensures Concat(ReadLines(t)) == t
    decreases |t|
  {
    if t != [] {
      var k := FirstLineLength(t);
      ReadLinesConcat(t[k..]);
      ConcatPrepend(t[..k], ReadLines(t[k..]));
      assert t == t[..k] + t[k..];
    }
  }

  /** No line is empty or has a newline before its end, and only the last may lack one. */
  lemma {:induction false} ReadLinesAreLines(t: string)
    ensures forall i :: 0 <= i < |ReadLines(t)| ==>
      ReadLines(t)[i] != "" && '\n' !in ReadLines(t)[i][..|ReadLines(t)[i]| - 1]
    ensures forall i :: 0 <= i < |ReadLines(t)| - 1 ==> ReadLines(t)[i][|ReadLines(t)[i]| - 1] == '\n'
    decreases |t|
  {
    if t != [] {
      var k := FirstLineLength(t);
      var rest := ReadLines(t[k..]);
      ReadLinesAreLines(t[k..]);
      var lines := ReadLines(t);
      assert lines == [t[..k]] + rest;
      forall i | 0 <= i < |lines|
        ensures lines[i] != "" && '\n' !in lines[i][..|lines[i]| - 1]
      {
        if i > 0 {
          assert lines[i] == rest[i - 1];
        }
      }
      forall i | 0 <= i < |lines| - 1
        ensures lines[i][|lines[i]| - 1] == '\n'
      {
        if i > 0 {
          assert lines[i] == rest[i - 1];
        } else {
          assert k < |t|;
        }
      }
    }
  }

  /** The lines of a file opened in text mode; `None` when its bytes are not UTF-8. */
  function FileLines(f: SourceFile): Option<seq<string>> {
    match Decode(f.code)
    case None => None
    case Some(text) => Some(ReadLines(TranslateNewlines(text)))
  }

  /** What `retrieve_code_by_line_number` returns: the joined lines, or the empty list `[]`. */
  datatype BugCode = Code(text: string) | NoCode

  /** True when the file exists, decodes, and `1 <= start <= end <= number of lines`. */
  predicate ValidRange(fs: FileSystem, path: string, loc: LineRange) {
    && path in fs
    && FileLines(fs[path]).Some?
    && 1 <= loc.start <= loc.end <= |FileLines(fs[path]).value|
  }

  /** `retrieve_code_by_line_number`. */
  function RetrieveCodeByLineNumber(fs: FileSystem, path: string, loc: LineRange): (r: BugCode)
    ensures r.Code? <==> ValidRange(fs, path, loc)
  {
    if path !in fs then NoCode
    else
      match FileLines(fs[path])
      case None => NoCode
      case Some(lines) =>
        var startIdx := loc.start - 1;
        var endIdx := loc.end;
        if startIdx < 0 || endIdx > |lines| || startIdx >= endIdx then NoCode
        else Code(Concat(lines[startIdx..endIdx]))
  }

  /** The retrieved text sits in the file between the lines before and the lines after it. */
  lemma RetrievedTextInFile(fs: FileSystem, path: string, loc: LineRange)
    requires ValidRange(fs, path, loc)
    ensures var lines := FileLines(fs[path]).value;
      Concat(lines[..loc.start - 1]) + RetrieveCodeByLineNumber(fs, path, loc).text + Concat(lines[loc.end..])
      == TranslateNewlines(Decode(fs[path].code).value)
  {
    var lines := FileLines(fs[path]).value;
    ReadLinesConcat(TranslateNewlines(Decode(fs[path].code).value));
    ConcatOfRange(lines, loc.start - 1, loc.end);
  }

  /** A one-line range yields exactly that line. */
  lemma SingleLine(fs: FileSystem, path: string, n: int)
    requires ValidRange(fs, path, LineRange(n, n))
    ensures RetrieveCodeByLineNumber(fs, path, LineRange(n, n)).text == FileLines(fs[path]).value[n - 1]
  {
    var lines := FileLines(fs[path]).value;
    assert lines[n - 1..n] == [lines[n - 1]];
    assert Concat([lines[n - 1]]) == Concat([]) + lines[n - 1];
  }

  /** The text of a range is the text of its first part followed by the text of the rest. */
  lemma RangeSplits(fs: FileSystem, path: string, loc: LineRange, m: int)
    requires ValidRange(fs, path, loc) && loc.start <= m < loc.end
    ensures RetrieveCodeByLineNumber(fs, path, loc).text
      == RetrieveCodeByLineNumber(fs, path, LineRange(loc.start, m)).text
       + RetrieveCodeByLineNumber(fs, path, LineRange(m + 1, loc.end)).text
  {
    var lines := FileLines(fs[path]).value;
    var part := lines[loc.start - 1..loc.end];
    ConcatOfSplitPoint(part, m - loc.start + 1);
    assert part[..m - loc.start + 1] == lines[loc.start - 1..m];
    assert part[m - loc.start + 1..] == lines[m..loc.end];
  }

  /** What the comment and name helpers are handed: a syntax node, or (as some callers do) the
      node's text, whose missing attributes make the helper's `try` block fail. */
  datatype Scope = NodeScope(node: Node) | TextScope(text: string)

  /** The matches of the comment query, in document order. */
  function Comments(f: SourceFile): seq<Node> {
    Select(f.nodes, {BlockComment, LineComment})
  }

  /** A comment ends on the declaration's first row or on the row just before it. */
  predicate EndsAdjacent(comment: Node, row: nat) {
    comment.endRow == row - 1 || comment.endRow == row
  }

  /** The first comment, in match order, that ends adjacent to `row`. */
  function FirstAdjacent(comments: seq<Node>, row: nat): (r: Option<Node>)
    ensures r.None? <==> forall i :: 0 <= i < |comments| ==> !EndsAdjacent(comments[i], row)
    ensures r.Some? ==> (exists i :: 0 <= i < |comments| && comments[i] == r.value
                           && EndsAdjacent(comments[i], row)
                           && forall j :: 0 <= j < i ==> !EndsAdjacent(comments[j], row))
    decreases |comments|
  {
    if comments == [] then None
    else if EndsAdjacent(comments[0], row) then Some(comments[0])
    else
      var r := FirstAdjacent(comments[1..], row);
      assert forall i :: 1 <= i < |comments| ==> comments[1..][i - 1] == comments[i];
      r
  }

  /** What `get_comments_before_node` returns for these arguments. */
  function CommentBefore(fs: FileSystem, path: string, scope: Scope): Option<Node> {
    if path !in fs || scope.TextScope? then None
    else FirstAdjacent(Comments(fs[path]), scope.node.startRow)
  }

  /** `get_comments_before_node`: scans the comment matches and returns the first that ends on
      the declaration's first row or the row before; a missing file or a non-node argument gives
      `None`. */
  method GetCommentsBeforeNode(fs: FileSystem, path: string, scope: Scope) returns (r: Option<Node>)
    ensures r == CommentBefore(fs, path, scope)
  {
    if path !in fs || scope.TextScope? {
      return None;
    }
    var row := scope.node.startRow;
    var comments := Comments(fs[path]);
    var i := 0;
    while i < |comments|
      invariant 0 <= i <= |comments|
      invariant FirstAdjacent(comments, row) == FirstAdjacent(comments[i..], row)
    {
      if EndsAdjacent(comments[i], row) {
        return Some(comments[i]);
      }
      assert comments[i..][1..] == comments[i + 1..];
      i := i + 1;
    }
    return None;
  }

  /** A node's text is never a valid argument: the lookup always gives `None`. */
  lemma TextScopeFindsNothing(fs: FileSystem, path: string, text: string)
    ensures CommentBefore(fs, path, TextScope(text)) == None
  {
  }

  /** The first child of type `identifier`. */
  function FirstIdentifier(children: seq<Node>): (r: Option<Node>)
    ensures r.None? <==> forall i :: 0 <= i < |children| ==> children[i].kind != Identifier
    ensures r.Some? ==> (exists i :: 0 <= i < |children| && children[i] == r.value
                           && r.value.kind == Identifier
                           && forall j :: 0 <= j < i ==> children[j].kind != Identifier)
    decreases |children|
  {
    if children == [] then None
    else if children[0].kind == Identifier then Some(children[0])
    else
      var r := FirstIdentifier(children[1..]);
      assert forall i :: 1 <= i < |children| ==> children[1..][i - 1] == children[i];
      r
  }

  /** What `get_name_from_tree_sitter_node` returns for these arguments. */
  function DeclarationName(scope: Scope, fs: FileSystem, path: string): Option<(string, string)> {
    if path !in fs || scope.TextScope? then None
    else
      var node := scope.node;
      var role := if node.kind == MethodDeclaration then "method" else "constructor";
      if node.kind != MethodDeclaration && node.kind != ConstructorDeclaration then None
      else
        match FirstIdentifier(node.children)
        case None => None
        case Some(id) =>
          match GetNodeText(id, fs[path].code)
          case Raise(_) => None
          case Ok(name) => Some((role, name))
  }

  /** `get_name_from_tree_sitter_node`: for a method or constructor declaration, its kind and
      the text of its first identifier child; `None` for other node types, for a declaration
      without an identifier child, and when the file or the text cannot be read. */
  method GetNameFromTreeSitterNode(scope: Scope, fs: FileSystem, path: string)
    returns (r: Option<(string, string)>)
    ensures r == DeclarationName(scope, fs, path)
    ensures r.Some? ==> scope.NodeScope?
    ensures r.Some? ==> (r.value.0 == "method" <==> scope.node.kind == MethodDeclaration)
    ensures r.Some? ==> (r.value.0 == "constructor" <==> scope.node.kind == ConstructorDeclaration)
  {
    if path !in fs || scope.TextScope? {
      return None;
    }
    var node := scope.node;
    if node.kind != MethodDeclaration && node.kind != ConstructorDeclaration {
      return None;
    }
    var role := if node.kind == MethodDeclaration then "method" else "constructor";
    var children := node.children;
    var i := 0;
    while i < |children|
      invariant 0 <= i <= |children|
      invariant FirstIdentifier(children) == FirstIdentifier(children[i..])
    {
      if children[i].kind == Identifier {
        var text := GetNodeText(children[i], fs[path].code);
        if text.Raise? {
          return None;
        }
        return Some((role, text.value));
      }
      assert children[i..][1..] == children[i + 1..];
      i := i + 1;
    }
    return None;
  }

  /** The name found is the text of the declaration's first identifier child. */
  lemma NameIsFirstIdentifierText(node: Node, fs: FileSystem, path: string)
    requires DeclarationName(NodeScope(node), fs, path).Some?
    ensures FirstIdentifier(node.children).Some?
    ensures Encode(DeclarationName(NodeScope(node), fs, path).value.1)
      == NodeBytes(FirstIdentifier(node.children).value, fs[path].code)
  {
  }
}
