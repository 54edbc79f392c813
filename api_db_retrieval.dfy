/** The API database helpers: the names a Java file imports, and the merge of API categories
    from the database into a list of APIs. */
module ApiDbRetrieval {
  import opened Outcomes
  import opened Text
  import opened Utf8
  import opened Syntax
  import opened RetrievalUtils

  /* ---------- Imported APIs ---------- */

  const ImportDeclaration := "import_declaration"

  /** `snippet[7:-1]`: an import declaration without `import ` and the closing `;`. */
  function TrimImport(snippet: string): (r: string)
    ensures |r| == if |snippet| <= 8 then 0 else |snippet| - 8
    ensures forall i :: 0 <= i < |r| ==> r[i] == snippet[i + 7]
  {
    Slice(snippet, 7, -1)
  }

  /** Trimming undoes the spelling of a declaration. */
  lemma TrimImportOfDeclaration(name: string)
    ensures TrimImport("import " + name + ";") == name
  {
    var d := "import " + name + ";";
    assert d[7..|d| - 1] == name;
  }

  /** The captures of `(import_declaration) @import` on a file's tree: one list of nodes under
      the single capture name, in document order. */
  function ImportCaptures(f: SourceFile): seq<seq<Node>> {
    [Select(f.nodes, {ImportDeclaration})]
  }

  /** The captures one after another. */
  function Flatten<T>(groups: seq<seq<T>>): seq<T>
    decreases |groups|
  {
    if groups == [] then [] else Flatten(groups[..|groups| - 1]) + groups[|groups| - 1]
  }

  /** The text of a node in a file's bytes. */
  function NodeTexts(code: seq<byte>): Node -> Result<string> {
    n => GetNodeText(n, code)
  }

  /** The trimmed text of each node, in order; the first node whose text fails decides the
      exception. */
  function TrimEach(nodes: seq<Node>, text: Node -> Result<string>): Result<seq<string>>
    decreases |nodes|
  {
    if nodes == [] then Ok([])
    else
      match TrimEach(nodes[..|nodes| - 1], text)
      case Raise(e) => Raise(e)
      case Ok(apis) =>
        match text(nodes[|nodes| - 1])
        case Raise(e) => Raise(e)
        case Ok(snippet) => Ok(apis + [TrimImport(snippet)])
  }

  /** The names of `retrieve_existing_apis` for the nodes of one file. */
  function ImportedApis(code: seq<byte>, nodes: seq<Node>): (r: Result<seq<string>>)
    ensures r.Raise? ==> r.error == UnicodeDecodeError
  {
    TrimEachAll(nodes, NodeTexts(code));
    TrimEach(nodes, NodeTexts(code))
  }

  /** Every node gives one name, in order: its text trimmed; the whole fails exactly when the
      text of some node fails, and then with the exception of such a node. */
  lemma {:induction false} TrimEachAll(nodes: seq<Node>, text: Node -> Result<string>)
    ensures TrimEach(nodes, text).Ok? <==> forall i :: 0 <= i < |nodes| ==> text(nodes[i]).Ok?
    ensures TrimEach(nodes, text).Raise? ==>
      exists i :: 0 <= i < |nodes| && text(nodes[i]) == Raise(TrimEach(nodes, text).error)
    ensures TrimEach(nodes, text).Ok? ==>
      var apis := TrimEach(nodes, text).value;
      |apis| == |nodes| && forall i :: 0 <= i < |nodes| ==> apis[i] == TrimImport(text(nodes[i]).value)
    decreases |nodes|
  {
    if nodes != [] {
      var n := |nodes| - 1;
      var init := nodes[..n];
      TrimEachAll(init, text);
      assert forall i :: 0 <= i < n ==> init[i] == nodes[i];
    }
  }

  /** For the nodes of a file: one trimmed name per node, and a failure is a decoding error. */
  lemma ImportedApisTrimEach(code: seq<byte>, nodes: seq<Node>)
    ensures ImportedApis(code, nodes).Ok? <==>
      forall i :: 0 <= i < |nodes| ==> GetNodeText(nodes[i], code).Ok?
    ensures ImportedApis(code, nodes).Raise? ==> ImportedApis(code, nodes).error == UnicodeDecodeError
    ensures ImportedApis(code, nodes).Ok? ==>
      var apis := ImportedApis(code, nodes).value;
      |apis| == |nodes|
      && forall i :: 0 <= i < |nodes| ==> apis[i] == TrimImport(GetNodeText(nodes[i], code).value)
  {
    var text := NodeTexts(code);
    TrimEachAll(nodes, text);
    assert forall i :: 0 <= i < |nodes| ==> text(nodes[i]) == GetNodeText(nodes[i], code);
  }

  /** The inner loop of `retrieve_existing_apis` over one capture list. */
  method AppendCapture(code: seq<byte>, done: seq<Node>, group: seq<Node>, apis: seq<string>)
    returns (r: Result<seq<string>>)
    requires ImportedApis(code, done) == Ok(apis)
    ensures r == ImportedApis(code, done + group)
  {
    ghost var text := NodeTexts(code);
    var imported := apis;
    assert done + group[..0] == done;
    for j := 0 to |group|
      invariant TrimEach(done + group[..j], text) == Ok(imported)
    {
      ExtendSlice(done, group, j);
      TrimEachSnoc(done + group[..j], group[j], text);
      var snippet := GetNodeText(group[j], code);
      assert text(group[j]) == snippet;
      match snippet {
        case Raise(e) =>
          r := Raise(e);
          LaterNodesKeepError(done + group[..j + 1], group[j + 1..], text);
          RejoinSlices(done, group, j + 1);
          return;
        case Ok(s) =>
          imported := imported + [TrimImport(s)];
      }
    }
    assert group[..|group|] == group;
    r := Ok(imported);
  }

  lemma ExtendSlice<T>(a: seq<T>, b: seq<T>, j: nat)
    requires j < |b|
    ensures a + b[..j + 1] == (a + b[..j]) + [b[j]]
  {
    assert b[..j + 1] == b[..j] + [b[j]];
  }

  lemma RejoinSlices<T>(a: seq<T>, b: seq<T>, j: nat)
    requires j <= |b|
    ensures a + b[..j] + b[j..] == a + b
  {
    assert b[..j] + b[j..] == b;
  }

  /** One more node: its trimmed text joins the names, or its error escapes. */
  lemma TrimEachSnoc(nodes: seq<Node>, n: Node, text: Node -> Result<string>)
    ensures TrimEach(nodes + [n], text) ==
      match TrimEach(nodes, text)
      case Raise(e) => Raise(e)
      case Ok(apis) =>
        match text(n)
        case Raise(e) => Raise(e)
        case Ok(snippet) => Ok(apis + [TrimImport(snippet)])
  {
    assert (nodes + [n])[..|nodes|] == nodes;
  }

  /** Once a node fails, the nodes after it do not change the outcome. */
  lemma {:induction false} LaterNodesKeepError(nodes: seq<Node>, more: seq<Node>, text: Node -> Result<string>)
    requires TrimEach(nodes, text).Raise?
    ensures TrimEach(nodes + more, text) == TrimEach(nodes, text)
    decreases |more|
  {
    if more != [] {
      var init := more[..|more| - 1];
      LaterNodesKeepError(nodes, init, text);
      assert (nodes + more)[..|nodes + more| - 1] == nodes + init;
    } else {
      assert nodes + more == nodes;
    }
  }

  /** `retrieve_existing_apis`: a file that cannot be opened raises `FileNotFoundError`;
      otherwise the trimmed text of every captured import declaration, in capture order. */
  method RetrieveExistingApis(fs: FileSystem, path: string) returns (r: Result<seq<string>>)
    ensures path !in fs ==> r == Raise(FileNotFoundError)
    ensures path in fs ==> r == ImportedApis(fs[path].code, Flatten(ImportCaptures(fs[path])))
  {
    if path !in fs {
      return Raise(FileNotFoundError);
    }
    var code := fs[path].code;
    var captures := ImportCaptures(fs[path]);
    var imported := [];
    for g := 0 to |captures|
      invariant ImportedApis(code, Flatten(captures[..g])) == Ok(imported)
    {
      assert captures[..g + 1][..g] == captures[..g];
      var step := AppendCapture(code, Flatten(captures[..g]), captures[g], imported);
      match step {
        case Raise(e) =>
          r := Raise(e);
          LaterCapturesKeepError(code, captures[..g + 1], captures[g + 1..]);
          assert captures[..g + 1] + captures[g + 1..] == captures;
          return;
        case Ok(apis) =>
          imported := apis;
      }
    }
    assert captures[..|captures|] == captures;
    r := Ok(imported);
  }

  /** Flattening distributes over concatenation. */
  lemma {:induction false} FlattenAppend<T>(a: seq<seq<T>>, b: seq<seq<T>>)
    ensures Flatten(a + b) == Flatten(a) + Flatten(b)
    decreases |b|
  {
    if b == [] {
      assert a + b == a;
    } else {
      var init, last := b[..|b| - 1], b[|b| - 1];
      FlattenAppend(a, init);
      SplitLast(a, b);
      DropAppended(a + init, last);
      SeqAssociates(Flatten(a), Flatten(init), last);
    }
  }

  /** Once a capture list holds a node that fails to decode, later lists do not matter. */
  lemma LaterCapturesKeepError(code: seq<byte>, groups: seq<seq<Node>>, more: seq<seq<Node>>)
    requires ImportedApis(code, Flatten(groups)).Raise?
    ensures ImportedApis(code, Flatten(groups + more)) == ImportedApis(code, Flatten(groups))
  {
    FlattenAppend(groups, more);
    LaterNodesKeepError(Flatten(groups), Flatten(more), NodeTexts(code));
  }

  /* ---------- Querying the database ---------- */

  /** The API database: a list of APIs under each category name. */
  type ApiDb = map<string, seq<string>>

  /** The loop of `query_api_db` over the remaining categories, with the APIs so far in
      `apis`: an unknown category raises `KeyError`, an empty one `IndexError`; a category whose
      first entry is already listed is skipped, any other has all its entries appended. */
  function Merge(categories: seq<string>, db: ApiDb, apis: seq<string>): (r: Result<seq<string>>)
    ensures r.Raise? ==> r.error == KeyError || r.error == IndexError
    ensures r.Ok? ==> |apis| <= |r.value| && r.value[..|apis|] == apis
    decreases |categories|
  {
    if categories == [] then Ok(apis)
    else
      var c := categories[0];
      if c !in db then Raise(KeyError)
      else if db[c] == [] then Raise(IndexError)
      else if db[c][0] in apis then Merge(categories[1..], db, apis)
      else Merge(categories[1..], db, apis + db[c])
  }

  /** `query_api_db` with the database already loaded: the loop runs on a copy of
      `currentApis`, appending one entry at a time. */
  method QueryApiDb(apisToRetrieve: seq<string>, currentApis: seq<string>, db: ApiDb)
    returns (r: Result<seq<string>>)
    ensures r == Merge(apisToRetrieve, db, currentApis)
  {
    var updated := currentApis;
    for i := 0 to |apisToRetrieve|
      invariant Merge(apisToRetrieve[i..], db, updated) == Merge(apisToRetrieve, db, currentApis)
    {
      var category := apisToRetrieve[i];
      assert apisToRetrieve[i..][1..] == apisToRetrieve[i + 1..];
      if category !in db {
        return Raise(KeyError);
      }
      var entries := db[category];
      if entries == [] {
        return Raise(IndexError);
      }
      if entries[0] in updated {
        continue;
      }
      ghost var before := updated;
      for j := 0 to |entries|
        invariant updated == before + entries[..j]
      {
        updated := updated + [entries[j]];
        assert entries[..j + 1] == entries[..j] + [entries[j]];
      }
      assert entries[..|entries|] == entries;
    }
    r := Ok(updated);
  }

  /** The query fails exactly when some requested category is unknown or empty; the first such
      category decides the exception. */
  lemma {:induction false} MergeFails(categories: seq<string>, db: ApiDb, apis: seq<string>)
    ensures Merge(categories, db, apis).Raise? <==>
      exists i :: 0 <= i < |categories| && (categories[i] !in db || db[categories[i]] == [])
    ensures Merge(categories, db, apis).Raise? ==>
      exists i :: 0 <= i < |categories|
        && (forall k :: 0 <= k < i ==> categories[k] in db && db[categories[k]] != [])
        && Merge(categories, db, apis).error == (if categories[i] !in db then KeyError else IndexError)
  {
    MergeRaisesIff(categories, db, apis);
    if Merge(categories, db, apis).Raise? {
      var i := FirstFailingCategory(categories, db, apis);
    }
  }

  lemma {:induction false} MergeRaisesIff(categories: seq<string>, db: ApiDb, apis: seq<string>)
    ensures Merge(categories, db, apis).Raise? <==>
      exists i :: 0 <= i < |categories| && (categories[i] !in db || db[categories[i]] == [])
    decreases |categories|
  {
    if categories != [] {
      var c, rest := categories[0], categories[1..];
      if c in db && db[c] != [] {
        var next := if db[c][0] in apis then apis else apis + db[c];
        MergeRaisesIff(rest, db, next);
        assert Merge(categories, db, apis) == Merge(rest, db, next);
        assert forall i :: 0 <= i < |rest| ==> rest[i] == categories[i + 1];
        if exists i :: 0 <= i < |categories| && (categories[i] !in db || db[categories[i]] == []) {
          var i :| 0 <= i < |categories| && (categories[i] !in db || db[categories[i]] == []);
          assert rest[i - 1] == categories[i];
        }
      }
    }
  }

  /** The first unknown or empty category of a failed query, which decides its exception. */
  lemma {:induction false} FirstFailingCategory(categories: seq<string>, db: ApiDb, apis: seq<string>)
    returns (i: nat)
    requires Merge(categories, db, apis).Raise?
    ensures i < |categories|
    ensures forall k :: 0 <= k < i ==> categories[k] in db && db[categories[k]] != []
    ensures Merge(categories, db, apis).error == (if categories[i] !in db then KeyError else IndexError)
    decreases |categories|
  {
    var c, rest := categories[0], categories[1..];
    if c !in db || db[c] == [] {
      i := 0;
    } else {
      var next := if db[c][0] in apis then apis else apis + db[c];
      assert Merge(categories, db, apis) == Merge(rest, db, next);
      var j := FirstFailingCategory(rest, db, next);
      i := j + 1;
      assert categories[i] == rest[j];
      assert forall k :: 1 <= k < i ==> categories[k] == rest[k - 1];
    }
  }

  /** The result keeps the given APIs as its prefix, lists the first entry of every requested
      category, and holds nothing that is neither given nor in a requested category. */
  lemma {:induction false} MergeCovers(categories: seq<string>, db: ApiDb, apis: seq<string>)
    requires Merge(categories, db, apis).Ok?
    ensures var r := Merge(categories, db, apis).value;
      |apis| <= |r| && r[..|apis|] == apis
      && (forall i :: 0 <= i < |categories| ==>
            categories[i] in db && db[categories[i]] != [] && db[categories[i]][0] in r)
      && (forall x :: x in r ==> x in apis || exists i :: 0 <= i < |categories| && x in db[categories[i]])
    decreases |categories|
  {
    if categories != [] {
      var c, rest := categories[0], categories[1..];
      var next := if db[c][0] in apis then apis else apis + db[c];
      MergeCovers(rest, db, next);
      var r := Merge(categories, db, apis).value;
      assert r == Merge(rest, db, next).value;
      assert r[..|next|] == next;
      assert r[..|apis|] == next[..|apis|];
      assert db[c][0] in next;
      assert db[c][0] in r by {
        var k :| 0 <= k < |next| && next[k] == db[c][0];
        assert r[k] == db[c][0];
      }
      forall i | 0 <= i < |categories|
        ensures categories[i] in db && db[categories[i]] != [] && db[categories[i]][0] in r
      {
        if i > 0 {
          assert categories[i] == rest[i - 1];
        }
      }
      forall x | x in r
        ensures x in apis || exists i :: 0 <= i < |categories| && x in db[categories[i]]
      {
        if x !in apis {
          if x in next {
            assert x in db[categories[0]];
          } else {
            var i :| 0 <= i < |rest| && x in db[rest[i]];
            assert rest[i] == categories[i + 1];
          }
        }
      }
    }
  }

  /** The length grows by whole categories: at most by the sizes of all requested ones. */
  function TotalSize(categories: seq<string>, db: ApiDb): nat
    decreases |categories|
  {
    if categories == [] then 0
    else (if categories[0] in db then |db[categories[0]]| else 0) + TotalSize(categories[1..], db)
  }

  lemma {:induction false} MergeLength(categories: seq<string>, db: ApiDb, apis: seq<string>)
    requires Merge(categories, db, apis).Ok?
    ensures |apis| <= |Merge(categories, db, apis).value| <= |apis| + TotalSize(categories, db)
    decreases |categories|
  {
    if categories != [] {
      var c := categories[0];
      MergeLength(categories[1..], db, if db[c][0] in apis then apis else apis + db[c]);
    }
  }

  /** Asking again for the same categories adds nothing: each one's first entry is listed. */
  lemma MergeIdempotent(categories: seq<string>, db: ApiDb, apis: seq<string>)
    requires Merge(categories, db, apis).Ok?
    ensures Merge(categories, db, Merge(categories, db, apis).value) == Merge(categories, db, apis)
  {
    MergeCovers(categories, db, apis);
    AllListedSkipped(categories, db, Merge(categories, db, apis).value);
  }

  /** Categories whose first entries are all listed are all skipped. */
  lemma {:induction false} AllListedSkipped(categories: seq<string>, db: ApiDb, apis: seq<string>)
    requires forall i :: 0 <= i < |categories| ==>
      categories[i] in db && db[categories[i]] != [] && db[categories[i]][0] in apis
    ensures Merge(categories, db, apis) == Ok(apis)
    decreases |categories|
  {
    if categories != [] {
      var rest := categories[1..];
      assert forall i :: 0 <= i < |rest| ==> rest[i] == categories[i + 1];
      AllListedSkipped(rest, db, apis);
    }
  }

  /** A category is appended whole even when some of its later entries are already listed. */
  lemma AppendsDuplicates()
    ensures Merge(["io"], map["io" := ["java.io.File", "java.util.List"]], ["java.util.List"])
      == Ok(["java.util.List", "java.io.File", "java.util.List"])
  {
    var db := map["io" := ["java.io.File", "java.util.List"]];
    var listed: seq<string> := ["java.util.List"];
    assert db["io"][0] !in listed by {
      assert db["io"][0][5] != listed[0][5];
    }
    assert Merge(["io"], db, listed) == Merge([], db, listed + db["io"]);
    assert listed + db["io"] == ["java.util.List", "java.io.File", "java.util.List"];
  }

  /** The skip test sees entries appended earlier in the same call. */
  lemma SkipSeesEarlierCategories()
    ensures Merge(["lists", "collections"],
                  map["lists" := ["java.util.List"], "collections" := ["java.util.List", "java.util.Set"]],
                  []) == Ok(["java.util.List"])
  {
    var db := map["lists" := ["java.util.List"], "collections" := ["java.util.List", "java.util.Set"]];
    var listed: seq<string> := ["java.util.List"];
    assert [] + db["lists"] == listed;
    assert Merge(["lists", "collections"], db, []) == Merge(["collections"], db, listed);
    assert Merge(["collections"], db, listed) == Merge([], db, listed);
  }
}
