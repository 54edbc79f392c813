/** The syntax tree a Java parser produces, reduced to what the modelled code reads: each node's
    type, its 0-based first and last row, its byte span and its children. Parsing is external: a
    source file carries its raw bytes together with its nodes in pre-order (document order), and
    a query over the tree is the selection of the nodes of the queried types in that order. */
module Syntax {
  import opened Utf8

  const MethodDeclaration := "method_declaration"
  const ConstructorDeclaration := "constructor_declaration"
  const ClassDeclaration := "class_declaration"
  const ImportDeclaration := "import_declaration"
  const BlockComment := "block_comment"
  const LineComment := "line_comment"
  const Identifier := "identifier"

  datatype Node = Node(
    kind: string,
    startRow: nat,
    endRow: nat,
    startByte: nat,
    endByte: nat,
    children: seq<Node>)

  /** A Java source file: its bytes, and every node of its syntax tree in pre-order. */
  datatype SourceFile = SourceFile(code: seq<byte>, nodes: seq<Node>)

  /** The files that can be opened, by path; a path that is absent raises `FileNotFoundError`. */
  type FileSystem = map<string, SourceFile>

  /** A reported bug location: first and last line, 1-based and inclusive, as given. */
  datatype LineRange = LineRange(start: int, end: int)

  /** The matches of a query for the node types `kinds`, in document order. */
  function Select(nodes: seq<Node>, kinds: set<string>): (r: seq<Node>)
    ensures |r| <= |nodes|
    ensures forall n :: n in r ==> n in nodes && n.kind in kinds
    ensures forall n :: n in nodes && n.kind in kinds ==> n in r
    decreases |nodes|
  {
    if nodes == [] then []
    else (if nodes[0].kind in kinds then [nodes[0]] else []) + Select(nodes[1..], kinds)
  }

  /** The matches keep document order: the matches of two stretches of nodes are the matches of
      the first followed by those of the second. */
  lemma {:induction false} SelectOfConcat(a: seq<Node>, b: seq<Node>, kinds: set<string>)
    ensures Select(a + b, kinds) == Select(a, kinds) + Select(b, kinds)
    decreases |a|
  {
    if a == [] {
      assert a + b == b;
    } else {
      assert (a + b)[0] == a[0];
      assert (a + b)[1..] == a[1..] + b;
      SelectOfConcat(a[1..], b, kinds);
    }
  }

  /** A single node is matched exactly when its type is queried. */
  lemma SelectOfOne(n: Node, kinds: set<string>)
    ensures Select([n], kinds) == if n.kind in kinds then [n] else []
  {
    assert [n][1..] == [];
  }
}
