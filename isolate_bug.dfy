/** Locating the declaration that holds a reported bug: the first method or constructor whose
    rows cover the bug's lines, else the first class that does, else nothing. */
module IsolateBug {
  import opened Outcomes
  import opened Syntax
  import opened RetrievalUtils

  const MethodKinds: set<string> := {MethodDeclaration, ConstructorDeclaration}
  const ClassKinds: set<string> := {ClassDeclaration}

  /** The node's rows cover the 1-based range, after shifting the range to 0-based rows: in
      1-based lines, the node's lines enclose the range. */
  predicate Covers(node: Node, loc: LineRange)
    ensures Covers(node, loc) <==> node.startRow + 1 <= loc.start && loc.end <= node.endRow + 1
  {
    node.startRow <= loc.start - 1 && loc.end - 1 <= node.endRow
  }

  /** The first node, in match order, that covers the range. */
  function FirstCovering(nodes: seq<Node>, loc: LineRange): (r: Option<Node>)
    ensures r.None? <==> forall i :: 0 <= i < |nodes| ==> !Covers(nodes[i], loc)
    ensures r.Some? ==> (exists i :: 0 <= i < |nodes| && nodes[i] == r.value && Covers(nodes[i], loc)
                           && forall j :: 0 <= j < i ==> !Covers(nodes[j], loc))
    decreases |nodes|
  {
    if nodes == [] then None
    else if Covers(nodes[0], loc) then Some(nodes[0])
    else
      var r := FirstCovering(nodes[1..], loc);
      assert forall i :: 1 <= i < |nodes| ==> nodes[1..][i - 1] == nodes[i];
      r
  }

  /** What the method/constructor and the class searches return: nothing for a missing file. */
  function CoveringMatch(fs: FileSystem, path: string, loc: LineRange, kinds: set<string>): (r: Option<Node>)
    ensures r.Some? ==> path in fs && r.value in fs[path].nodes && r.value.kind in kinds && Covers(r.value, loc)
    ensures r.None? <==> path !in fs || forall n :: n in fs[path].nodes && n.kind in kinds ==> !Covers(n, loc)
  {
    if path !in fs then None else FirstCovering(Select(fs[path].nodes, kinds), loc)
  }

  /** The loop shared by both searches: the first match that covers the range. */
  method FindCovering(matches: seq<Node>, loc: LineRange) returns (r: Option<Node>)
    ensures r == FirstCovering(matches, loc)
  {
    var startRow := loc.start - 1;
    var endRow := loc.end - 1;
    var i := 0;
    while i < |matches|
      invariant 0 <= i <= |matches|
      invariant FirstCovering(matches, loc) == FirstCovering(matches[i..], loc)
    {
      var node := matches[i];
      if node.startRow <= startRow && endRow <= node.endRow {
        return Some(node);
      }
      assert matches[i..][1..] == matches[i + 1..];
      i := i + 1;
    }
    return None;
  }

  /** `retrieve_buggy_method_or_constructor`. */
  method RetrieveBuggyMethodOrConstructor(fs: FileSystem, path: string, loc: LineRange)
    returns (r: Option<Node>)
    ensures r == CoveringMatch(fs, path, loc, MethodKinds)
    ensures r.Some? ==> r.value.kind in MethodKinds && Covers(r.value, loc)
  {
    if path !in fs {
      return None;
    }
    r := FindCovering(Select(fs[path].nodes, MethodKinds), loc);
  }

  /** `retrieve_buggy_class`. */
  method RetrieveBuggyClass(fs: FileSystem, path: string, loc: LineRange) returns (r: Option<Node>)
    ensures r == CoveringMatch(fs, path, loc, ClassKinds)
    ensures r.Some? ==> r.value.kind == ClassDeclaration && Covers(r.value, loc)
  {
    if path !in fs {
      return None;
    }
    r := FindCovering(Select(fs[path].nodes, ClassKinds), loc);
  }

  /** A node together with its rows as 1-based lines. */
  function Located(node: Node): (LineRange, Node) {
    (LineRange(node.startRow + 1, node.endRow + 1), node)
  }

  /** What `retrieve_buggy_node` returns: the method-or-constructor search first, the class
      search only when that finds nothing. */
  function BuggyNode(fs: FileSystem, path: string, loc: LineRange): (r: Option<(LineRange, Node)>)
    ensures r.Some? ==> path in fs && r.value.0.start <= loc.start && loc.end <= r.value.0.end
    ensures r.None? <==> CoveringMatch(fs, path, loc, MethodKinds).None?
                         && CoveringMatch(fs, path, loc, ClassKinds).None?
  {
    if path !in fs then None
    else match CoveringMatch(fs, path, loc, MethodKinds)
      case Some(m) => Some(Located(m))
      case None =>
        match CoveringMatch(fs, path, loc, ClassKinds)
        case Some(c) => Some(Located(c))
        case None => None
  }

  /** `retrieve_buggy_node`. */
  method RetrieveBuggyNode(fs: FileSystem, path: string, loc: LineRange)
    returns (r: Option<(LineRange, Node)>)
    ensures r == BuggyNode(fs, path, loc)
  {
    if path !in fs {
      return None;
    }
    var methodNode := RetrieveBuggyMethodOrConstructor(fs, path, loc);
    if methodNode.Some? {
      return Some(Located(methodNode.value));
    }
    var classNode := RetrieveBuggyClass(fs, path, loc);
    if classNode.Some? {
      return Some(Located(classNode.value));
    }
    return None;
  }

  /** The returned lines enclose the reported lines, and the node is a method, constructor or
      class declaration. */
  lemma BuggyNodeEnclosesRange(fs: FileSystem, path: string, loc: LineRange)
    requires BuggyNode(fs, path, loc).Some?
    ensures var (span, node) := BuggyNode(fs, path, loc).value;
      span.start <= loc.start && loc.end <= span.end
      && span == LineRange(node.startRow + 1, node.endRow + 1)
      && node.kind in MethodKinds + ClassKinds
      && node in fs[path].nodes
  {
    var m := CoveringMatch(fs, path, loc, MethodKinds);
    if m.None? {
      var c := CoveringMatch(fs, path, loc, ClassKinds);
      assert BuggyNode(fs, path, loc).value == Located(c.value);
    } else {
      assert BuggyNode(fs, path, loc).value == Located(m.value);
    }
  }

  /** A method or constructor that covers the range always wins over the classes around it. */
  lemma MethodPreferred(fs: FileSystem, path: string, loc: LineRange, m: Node)
    requires path in fs && m in fs[path].nodes && m.kind in MethodKinds && Covers(m, loc)
    ensures BuggyNode(fs, path, loc).Some?
    ensures BuggyNode(fs, path, loc).value.1.kind in MethodKinds
  {
    var matches := Select(fs[path].nodes, MethodKinds);
    assert m in matches;
    var i :| 0 <= i < |matches| && matches[i] == m;
    assert Covers(matches[i], loc);
    var found := CoveringMatch(fs, path, loc, MethodKinds);
    assert found.value in matches;
  }

  /** A class is returned exactly when no method or constructor covers the range and some
      class does. */
  lemma ClassOnlyAsFallback(fs: FileSystem, path: string, loc: LineRange)
    requires path in fs
    ensures (BuggyNode(fs, path, loc).Some? && BuggyNode(fs, path, loc).value.1.kind == ClassDeclaration)
      <==> ((forall n :: n in fs[path].nodes && n.kind in MethodKinds ==> !Covers(n, loc))
            && (exists n :: n in fs[path].nodes && n.kind == ClassDeclaration && Covers(n, loc)))
  {
    var ms := Select(fs[path].nodes, MethodKinds);
    var cs := Select(fs[path].nodes, ClassKinds);
    var m := CoveringMatch(fs, path, loc, MethodKinds);
    var c := CoveringMatch(fs, path, loc, ClassKinds);
    if m.Some? {
      assert m.value in ms;
    } else {
      assert forall n :: n in ms ==> !Covers(n, loc);
    }
    if c.Some? {
      assert c.value in cs;
    } else {
      assert forall n :: n in cs ==> !Covers(n, loc);
    }
  }

  /** Nothing is returned exactly when no method, constructor or class covers the range. */
  lemma NothingCovers(fs: FileSystem, path: string, loc: LineRange)
    requires path in fs
    ensures BuggyNode(fs, path, loc).None?
      <==> forall n :: n in fs[path].nodes && n.kind in MethodKinds + ClassKinds ==> !Covers(n, loc)
  {
    var ms := Select(fs[path].nodes, MethodKinds);
    var cs := Select(fs[path].nodes, ClassKinds);
    var m := CoveringMatch(fs, path, loc, MethodKinds);
    var c := CoveringMatch(fs, path, loc, ClassKinds);
    if m.Some? {
      assert m.value in ms;
    } else if c.Some? {
      assert c.value in cs;
    } else {
      assert forall n :: n in ms ==> !Covers(n, loc);
      assert forall n :: n in cs ==> !Covers(n, loc);
    }
  }

  /** One entry of `retrieve_buggy_lines_and_node`: the location, its text, its declaration. */
  datatype BuggyEntry = BuggyEntry(location: LineRange, lines: BugCode, node: Option<(LineRange, Node)>)

  /** The entry for one location: that location, its lines, and the declaration around it. */
  function EntryFor(fs: FileSystem, path: string, loc: LineRange): (r: BuggyEntry)
    ensures r.location == loc
    ensures r.lines.Code? <==> ValidRange(fs, path, loc)
    ensures r.node.Some? ==> Covers(r.node.value.1, loc)
  {
    BuggyEntry(loc, RetrieveCodeByLineNumber(fs, path, loc), BuggyNode(fs, path, loc))
  }

  /** `retrieve_buggy_lines_and_node`: one entry per reported location, in order. */
  method RetrieveBuggyLinesAndNode(fs: FileSystem, path: string, locations: seq<LineRange>)
    returns (result: seq<BuggyEntry>)
    ensures |result| == |locations|
    ensures forall i :: 0 <= i < |locations| ==> result[i] == EntryFor(fs, path, locations[i])
  {
    result := [];
    for i := 0 to |locations|
      invariant |result| == i
      invariant forall k :: 0 <= k < i ==> result[k] == EntryFor(fs, path, locations[k])
    {
      var lines := RetrieveCodeByLineNumber(fs, path, locations[i]);
      var node := RetrieveBuggyNode(fs, path, locations[i]);
      result := result + [BuggyEntry(locations[i], lines, node)];
    }
  }
}
