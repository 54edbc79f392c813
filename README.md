# Bug-context pipeline of an automated program repair tool, in Dafny

The modelled system gathers context about reported bugs in Java programs and hands it to
language-model agents for repair. This project models its core and proves properties about it.

- **Scope resolution.** Given a reported bug location (first and last line, 1-based and
  inclusive), find the enclosing declaration. The first method or constructor in match order
  whose rows cover the range wins; if none does, the first class that does; otherwise nothing.
- **Text helpers over a source file.** The text of a syntax node, which is the strict UTF-8
  decoding of its byte span. The text of a range of lines, or `[]` for an invalid range. The
  comment that ends on a declaration's first row or the row before it. The name of a method or
  constructor.
- **The Joern session.** A project's code property graph must be loaded before any query can
  run. Each query sends two commands to a Joern process. Its transcript is parsed into a method
  signature, a list of callees or a list of callers. Parsing strips colour codes in one pass,
  takes the payload of the first `val res … String = ` line, peels symmetric quotes, unescapes
  `\"`, decodes one JSON layer (or two when the first is a string), and filters the entries.
- **The two report assemblers.**
  - The bug-context report numbers bugs from 1 across all files and prints seven labelled
    fields per bug.
  - The patching agents' report prints the first six of those fields and dispatches on the
    context type. Only the "context retrieval" section adds the comments line and the call-graph
    section, and as written that section always raises.
  - Both render a call-graph section with one line per caller and per callee.
- **The Defects4J test-suite helpers.**
  - Where a project keeps its sources and tests.
  - The `List of modified sources:` scanner.
  - Cutting the failing-test report into one `--- test` segment per test.
  - The second-line failure message.
  - The line number of the test's first stack frame.
- **The small stateful containers.**
  - The API database merge: copy the list; skip a category whose first entry is already listed,
    otherwise append the whole category.
  - The import-name extraction.
  - The append-only message history and its round count.
  - The key/value information table and its prompt.

## How the world outside the program appears

- **Files.** The file system is a map from path to `SourceFile`. A `SourceFile` holds the
  file's bytes and the parser's nodes in pre-order. A path missing from the map raises
  `FileNotFoundError` where the program's `open` would.
- **Queries.** A tree-sitter query is the pre-order node list filtered by node type
  (`Syntax.Select`).
- **Exceptions.** An exception that propagates is `Result.Raise(kind)`. An exception that the
  program catches becomes the value its handler returns.
- **Joern.**
  - The Joern process is a parameter `engine`, a function from the text on standard input to
    the exit status and output, or to a spawn error.
  - `json.loads` is a parameter `decode`, with `None` where it raises.
  - A decoded object keeps its keys in document order, each key once; of keys repeated in the
    text the last value wins. The operations are stated for any list of entries, so they cover
    every such object.
  - `os.path.exists` is a parameter: the set of existing paths.
- **Defects4J.** The `defects4j info` run appears as its exit code and standard output.

Module per source file:

| module | source file |
|---|---|
| `IsolateBug` | `context_retrieval/isolate_bug.py` |
| `RetrievalUtils` | `context_retrieval/retrieval_utils.py` |
| `JoernCallgraph` | `context_retrieval/joern_callgraph.py` |
| `FormatContextRetrieval` | `context_retrieval/format_context_retrieval.py` |
| `PatchingFormatContext` | `patching_agents/format_context_retrieval.py` |
| `TestSuitesHelpers` | `test_suites/test_suites_helpers.py` |
| `ApiDbRetrieval` | `api_db/api_db_retrieval.py` |
| `MessageHistory` | `patching_agents/message_history.py` |
| `InfoDict` | `patching_agents/info_dict.py` |

Shared modules model the Python built-ins these files rely on:

| module | models |
|---|---|
| `Text` | `strip`, `find`, `split`, `join`, `replace`, slicing |
| `Numerals` | `str(int)` and `int(str)` |
| `Utf8` | strict UTF-8 decoding and encoding |
| `JsonValues` | decoded JSON values, their truth value and `str()` |
| `Syntax` | nodes, files, line ranges |
| `Outcomes` | `Option`, `Result`, exception kinds |

**Form of the model.**
- Code that loops in the program is a `method` with a loop. Its `ensures` ties the result to a
  specification function, and lemmas prove the program's promises about that function.
- `JoernSession`, `MessageHistory` and `InfoDict` are classes whose methods update their fields.
- The two report assemblers are specified against a renderer: a function from (file, bug
  number, location) to a rendered block. A ghost predicate requires that renderer to render each
  block as the program does. This keeps the numbering proofs apart from the block contents.

## Model

| member | source | states |
|---|---|---|
| Syntax.Select | context_retrieval/isolate_bug.py:80-85 | the matches of a query are exactly the nodes of the requested types |
| Syntax.SelectOfConcat | context_retrieval/isolate_bug.py:80-85 | the matches over two node lists back to back are the matches of each, in document order |
| Syntax.SelectOfOne | context_retrieval/isolate_bug.py:80-85 | a single node is matched exactly when its type is requested |
| IsolateBug.Covers | context_retrieval/isolate_bug.py:94-98 | a node covers a range exactly when its first row plus one is at or before the range's first line and its last row plus one at or after the range's last line |
| IsolateBug.CoveringMatch | context_retrieval/isolate_bug.py:74-101 | a match is a node of the file, of a requested type, that covers the range; there is none exactly when the file is missing or no such node covers the range |
| IsolateBug.FirstCovering | context_retrieval/isolate_bug.py:88-101 | the result is the first node in match order whose 0-based rows cover the range, and it is `None` exactly when no node covers it |
| IsolateBug.FindCovering | context_retrieval/isolate_bug.py:74-101 | the early-return search loop over the matches returns the first covering node |
| IsolateBug.RetrieveBuggyMethodOrConstructor | context_retrieval/isolate_bug.py:64-108 | the result is the first method or constructor declaration covering the range; a missing file gives `None` |
| IsolateBug.RetrieveBuggyClass | context_retrieval/isolate_bug.py:112-155 | the same containment test over class declarations only |
| IsolateBug.RetrieveBuggyNode | context_retrieval/isolate_bug.py:22-56 | the method search comes first and the class search only when it fails, with the span converted to 1-based lines |
| IsolateBug.BuggyNode | context_retrieval/isolate_bug.py:22-56 | a result comes from an existing file and its span encloses the range; there is none exactly when neither a method or constructor nor a class covers the range |
| IsolateBug.BuggyNodeEnclosesRange | context_retrieval/isolate_bug.py:35-45 | the returned span is the node's rows plus one, it encloses the reported range, and the node is a method, constructor or class of the file |
| IsolateBug.MethodPreferred | context_retrieval/isolate_bug.py:32-37 | when any method or constructor covers the range, a method or constructor is returned, never a class around it |
| IsolateBug.ClassOnlyAsFallback | context_retrieval/isolate_bug.py:39-45 | a class is returned if and only if no method or constructor covers the range and some class does |
| IsolateBug.NothingCovers | context_retrieval/isolate_bug.py:48-49 | `None` is returned if and only if no method, constructor or class covers the range |
| IsolateBug.RetrieveBuggyLinesAndNode | context_retrieval/isolate_bug.py:11-17 | one entry per location, in input order: the location unchanged, its lines and its declaration |
| IsolateBug.EntryFor | context_retrieval/isolate_bug.py:13-16 | an entry keeps its location, has code exactly when the range is valid for the file, and its node covers the location |
| RetrievalUtils.GetNodeText | context_retrieval/retrieval_utils.py:10-14 | the text exists exactly when the node's byte span is valid UTF-8, it re-encodes to that span, and otherwise `UnicodeDecodeError` is raised |
| RetrievalUtils.TranslateNewlines | context_retrieval/retrieval_utils.py:23 | text-mode reading leaves no carriage return |
| RetrievalUtils.ReadLinesConcat | context_retrieval/retrieval_utils.py:24 | the lines of `readlines()` concatenate back to the text |
| RetrievalUtils.ReadLinesAreLines | context_retrieval/retrieval_utils.py:24 | no line is empty or holds a line break before its end, and every line but the last ends in one |
| RetrievalUtils.RetrieveCodeByLineNumber | context_retrieval/retrieval_utils.py:18-49 | text is returned if and only if the file exists, decodes, and `1 <= start <= end <= line count`; otherwise `[]` |
| RetrievalUtils.RetrievedTextInFile | context_retrieval/retrieval_utils.py:39-42 | the lines before the range, the returned text and the lines after it make up the file's text |
| RetrievalUtils.SingleLine | context_retrieval/retrieval_utils.py:39-42 | a one-line range yields exactly that line, newline included |
| RetrievalUtils.RangeSplits | context_retrieval/retrieval_utils.py:39-42 | the text of a range is the text of its first part followed by the text of the rest |
| RetrievalUtils.FirstAdjacent | context_retrieval/retrieval_utils.py:76-90 | the first comment in match order whose end row is the declaration's start row or the row before; `None` exactly when no comment ends on either row |
| RetrievalUtils.GetCommentsBeforeNode | context_retrieval/retrieval_utils.py:52-97 | the nested scan returns that first adjacent comment; a missing file or an argument that is not a node gives `None` |
| RetrievalUtils.TextScopeFindsNothing | context_retrieval/retrieval_utils.py:65 | given a node's text instead of a node, the lookup always gives `None` (the attribute access fails and is caught) |
| RetrievalUtils.FirstIdentifier | context_retrieval/retrieval_utils.py:118-119 | the first child of type `identifier`, and `None` exactly when there is none |
| RetrievalUtils.GetNameFromTreeSitterNode | context_retrieval/retrieval_utils.py:100-133 | `("method", name)` only for a method declaration and `("constructor", name)` only for a constructor declaration; `None` for other nodes, no identifier child, or an unreadable file |
| RetrievalUtils.NameIsFirstIdentifierText | context_retrieval/retrieval_utils.py:120 | the name found encodes to the bytes of the declaration's first identifier child |
| Utf8.DecodeEncode | context_retrieval/retrieval_utils.py:14 | decoding the UTF-8 encoding of any text gives the text back |
| Utf8.EncodeDecode | context_retrieval/retrieval_utils.py:14 | bytes that decode re-encode to exactly those bytes |
| Utf8.DecodeAscii | context_retrieval/retrieval_utils.py:14 | ASCII bytes decode to one character per byte |
| JoernCallgraph.StripAnsi | context_retrieval/joern_callgraph.py:132 | removing colour sequences never lengthens a line |
| JoernCallgraph.StripAnsiPlain | context_retrieval/joern_callgraph.py:132 | a line without an escape character is unchanged |
| JoernCallgraph.StripAnsiDropsColour | context_retrieval/joern_callgraph.py:132 | a leading `ESC [ [0-9;]* m` sequence is removed whole |
| JoernCallgraph.StripAnsiIsOnePass | context_retrieval/joern_callgraph.py:132 | one pass can leave a colour sequence behind (`ESC ESC [ m [ m` becomes `ESC [ m`) |
| JoernCallgraph.StripAnsiPlainPrefix | context_retrieval/joern_callgraph.py:132 | text without an escape character in front of the rest passes through unchanged, and the rest is cleaned as on its own |
| JoernCallgraph.StripAnsiInsideLine | context_retrieval/joern_callgraph.py:132 | a colour code after ordinary characters is removed (`a ESC[32m b` becomes `ab`) |
| JoernCallgraph.Peel | context_retrieval/joern_callgraph.py:140-141 | the loop ends with a text that is no longer than the payload and is not wrapped in a matching pair of quotes |
| JoernCallgraph.PeelTrimsBothEnds | context_retrieval/joern_callgraph.py:140-141 | the quote loop ends on text that is not symmetrically quoted, which is the original text with equally many characters dropped from each end, or nothing |
| JoernCallgraph.PeelQuotes | context_retrieval/joern_callgraph.py:140-141 | the `while` loop computes the peeled payload |
| JoernCallgraph.PeelNested | context_retrieval/joern_callgraph.py:140-141 | `'"[1]"'` peels layer by layer to `[1]` |
| JoernCallgraph.PeelLoneQuote | context_retrieval/joern_callgraph.py:140-141 | a lone `"` counts as quoted at both ends and peels to nothing |
| JoernCallgraph.PeelMismatched | context_retrieval/joern_callgraph.py:140-141 | `"[1]'` is left alone |
| JoernCallgraph.Unescape | context_retrieval/joern_callgraph.py:144 | replacing `\"` by `"` never lengthens the text |
| JoernCallgraph.UnescapeKeepsEmptiness | context_retrieval/joern_callgraph.py:144-147 | unescaping `\"` leaves the emptiness test unchanged, so testing before or after it is the same |
| JoernCallgraph.PayloadSkipsWholeMarker | context_retrieval/joern_callgraph.py:136-137 | cutting at offset 8 of `String = ` and stripping gives the same payload as cutting after the whole marker |
| JoernCallgraph.FirstMarkerPayloadNone | context_retrieval/joern_callgraph.py:128-147 | the scan finds no payload if and only if no cleaned line holds both `val res` and `String = ` |
| JoernCallgraph.FirstMarkerPayloadIsFirst | context_retrieval/joern_callgraph.py:130-145 | the payload found is that of the first marker line |
| JoernCallgraph.DecodeTwice | context_retrieval/joern_callgraph.py:152-156 | a result needs the payload to decode, and it is that value or, when that value is a string, the decoding of the string |
| JoernCallgraph.ExtractPayload | context_retrieval/joern_callgraph.py:128-145 | the line loop with its `break` returns the peeled payload of the first marker line |
| JoernCallgraph.SignatureNeedsMarker | context_retrieval/joern_callgraph.py:147-162 | a signature is found only when a marker line exists with a non-empty payload, and it is the first element of the non-empty list that payload decodes to |
| JoernCallgraph.SignatureFrom | context_retrieval/joern_callgraph.py:122-162 | a signature is found only in output that has a marker line with a payload that is not empty |
| JoernCallgraph.LineText | context_retrieval/joern_callgraph.py:242-244 | the text of a call's line is stripped, and it is empty when the line number is not an integer |
| JoernCallgraph.ParseSignature | context_retrieval/joern_callgraph.py:123-170 | the parsing half of `get_method_signature_from_line_numbers` |
| JoernCallgraph.CalleeOf | context_retrieval/joern_callgraph.py:235-244 | an entry yields a callee if and only if it is an object with a truthy `name` and a truthy `lineNumber`, and the callee carries those two values |
| JoernCallgraph.Callees | context_retrieval/joern_callgraph.py:232-244 | at most one callee per entry of the decoded list |
| JoernCallgraph.CalleesAreQualified | context_retrieval/joern_callgraph.py:232-244 | there are never more callees than entries, and each has a truthy name and line |
| JoernCallgraph.CalleesKeepEveryQualifyingEntry | context_retrieval/joern_callgraph.py:232-244 | when every entry qualifies there is one callee per entry, in order |
| JoernCallgraph.QualifyingCalleesLength | context_retrieval/joern_callgraph.py:234-244 | when every entry qualifies, the callee list is exactly as long as the entry list |
| JoernCallgraph.QualifyingCalleeAt | context_retrieval/joern_callgraph.py:234-244 | when every entry qualifies, the callee at position i is the one built from entry i |
| JoernCallgraph.CalleesOfConcat | context_retrieval/joern_callgraph.py:234 | the callees of two lists back to back are the callees of each, back to back |
| JoernCallgraph.CalleesOfSnoc | context_retrieval/joern_callgraph.py:234 | one more entry at the end of the list adds its callee, if any, at the end |
| JoernCallgraph.CollectCallees | context_retrieval/joern_callgraph.py:232-244 | the loop that appends callees computes the callee list |
| JoernCallgraph.AppendCallee | context_retrieval/joern_callgraph.py:235-244 | one pass of that loop appends one callee when the entry is an object whose `name` and `lineNumber` are both truthy, and nothing otherwise |
| JoernCallgraph.ObjectCallers | context_retrieval/joern_callgraph.py:316-319 | at most one caller per key of the object |
| JoernCallgraph.ObjectCallersAreTruthyLines | context_retrieval/joern_callgraph.py:316-319 | each caller of an object is one of its truthy values, paired with the text of that line |
| JoernCallgraph.ObjectCallersKeepTruthy | context_retrieval/joern_callgraph.py:316-319 | an object whose values are all truthy gives one caller per entry, in key order |
| JoernCallgraph.ObjectCallersOfOne | context_retrieval/joern_callgraph.py:316-319 | a single entry gives its caller, with the text of its line, exactly when its value is truthy, and nothing otherwise |
| JoernCallgraph.ObjectCallersOfSnoc | context_retrieval/joern_callgraph.py:316-319 | one more entry at the end adds its caller at the end when its value is truthy |
| JoernCallgraph.ObjectCallersOfConcat | context_retrieval/joern_callgraph.py:316-319 | the callers of two entry lists back to back are the callers of each, back to back; with ObjectCallersOfOne, every truthy value yields its caller in key order and every falsy one is skipped |
| JoernCallgraph.MixedObjectCallers | context_retrieval/joern_callgraph.py:316-319 | `{"a": 0, "b": 5}` yields exactly one caller, for 5 |
| JoernCallgraph.Callers | context_retrieval/joern_callgraph.py:310-319 | a decoded list without objects yields no callers |
| JoernCallgraph.CallersAreTruthy | context_retrieval/joern_callgraph.py:310-319 | every caller of a list has a truthy line |
| JoernCallgraph.CallersOfSnoc | context_retrieval/joern_callgraph.py:310-319 | one more item at the end adds its object's callers at the end, and nothing for a non-object |
| JoernCallgraph.CallersOfConcat | context_retrieval/joern_callgraph.py:310-319 | the callers of two lists back to back are the callers of each, back to back, so a list's callers are its objects' callers in order |
| JoernCallgraph.CollectCallers | context_retrieval/joern_callgraph.py:310-319 | the nested loops that append callers compute the caller list |
| JoernCallgraph.AppendObjectCallers | context_retrieval/joern_callgraph.py:316-319 | the inner loop over one object appends exactly that object's callers, in key order |
| JoernCallgraph.ParseCallees | context_retrieval/joern_callgraph.py:191-256 | the parsing half of `get_callees_in_line_range`: `[]` without output, without a marker line, on an empty payload or a failed decode, and for anything but a list |
| JoernCallgraph.ParseCallers | context_retrieval/joern_callgraph.py:275-331 | the parsing half of `get_function_callers`, with the same fallbacks |
| JoernCallgraph.NoListNoResults | context_retrieval/joern_callgraph.py:147-149 | a transcript without a marker line gives no signature, no callees and no callers |
| JoernCallgraph.QueryOutcome | context_retrieval/joern_callgraph.py:365-375 | standard output is returned if and only if the process started and exited with status 0 |
| JoernCallgraph.CommandsAreTwoLines | context_retrieval/joern_callgraph.py:349-353 | Joern receives exactly the `importCpg("…/workspace/<name>/cpg.bin")` command and the query, one per line |
| JoernCallgraph.CpgPath | context_retrieval/joern_callgraph.py:349 | the graph's path starts with the Joern directory and ends with `/cpg.bin` |
| JoernCallgraph.Commands | context_retrieval/joern_callgraph.py:349-353 | the input starts with `importCpg("` and the graph's path, and ends with the query on its own line |
| JoernCallgraph.JoernSession.constructor | context_retrieval/joern_callgraph.py:19-30 | a new session keeps its three paths and has no project loaded |
| JoernCallgraph.JoernSession.LoadCpg | context_retrieval/joern_callgraph.py:78-102 | succeeds if and only if `<dir>/workspace/<name>/cpg.bin` exists, and then records the project; otherwise the project is unchanged |
| JoernCallgraph.JoernSession.RunJoernQuery | context_retrieval/joern_callgraph.py:334-375 | raises `RuntimeError` unless a project is loaded; otherwise the outcome of running the two commands |
| JoernCallgraph.JoernSession.GetMethodSignatureFromLineNumbers | context_retrieval/joern_callgraph.py:106-170 | raises `RuntimeError` unless a project is loaded; otherwise the signature parsed from the transcript of the line-range query |
| JoernCallgraph.JoernSession.GetCalleesInLineRange | context_retrieval/joern_callgraph.py:174-256 | raises `RuntimeError` unless a project is loaded; otherwise the callees parsed from the transcript of the call query |
| JoernCallgraph.JoernSession.GetFunctionCallers | context_retrieval/joern_callgraph.py:260-331 | raises `RuntimeError` unless a project is loaded; otherwise the signature query runs first, then the call-site query with the signature spliced in (`None` when none was found) |
| JsonValues.GetFindsKey | context_retrieval/joern_callgraph.py:237-238 | `get` finds a value exactly when the key is present, and the value is one stored under it |
| JsonValues.Get | context_retrieval/joern_callgraph.py:237-238 | a value found for a key is the value of an entry with that key |
| JsonValues.GetTakesFirst | context_retrieval/joern_callgraph.py:237-238 | the value found is that of the first entry with the key |
| JsonValues.Truthy | context_retrieval/joern_callgraph.py:240 | a value is false exactly when it is `null`, `false`, `0`, `""`, `[]` or `{}` |
| JsonValues.AsInteger | context_retrieval/joern_callgraph.py:242 | a value is used as a line number exactly when it is an integer or a Boolean, `True` counting as 1 and `False` as 0 |
| JsonValues.Str | context_retrieval/format_context_retrieval.py:85 | formatting gives a string itself and the empty text only for the empty string |
| JsonValues.Repr | context_retrieval/format_context_retrieval.py:85 | a list prints in brackets, an object in braces, a string between matching quotes |
| JsonValues.ReprString | context_retrieval/format_context_retrieval.py:85 | a string prints between matching quotes, with its characters copied unchanged between them when none needs escaping |
| JsonValues.CodeEscape | context_retrieval/format_context_retrieval.py:85 | a character that does not print is written as a backslash escape whose hexadecimal digits give its code point |
| JsonValues.CharRepr | context_retrieval/format_context_retrieval.py:85 | a printable character other than the backslash and the quote is copied; every other one becomes an escape starting with a backslash |
| JsonValues.EscapeForPrintsAsIs | context_retrieval/format_context_retrieval.py:85 | text in which no character needs escaping is copied unchanged |
| JsonValues.ReprOfControlCharacter | context_retrieval/format_context_retrieval.py:85 | a list holding the string of the control character U+0001 prints as `['\x01']` |
| Numerals.IntToString | context_retrieval/format_context_retrieval.py:49 | a number prints as its digits, with a leading `-` exactly when it is negative and no leading zeros |
| Numerals.RemoveUnderscores | test_suites/test_suites_helpers.py:239 | the digits that `int()` reads, unchanged when there is no underscore |
| FormatContextRetrieval.ReportNumbersBugsConsecutively | context_retrieval/format_context_retrieval.py:29-56 | when every file exists, the report is the flat list of bug blocks numbered 1, 2, … across files in input order |
| FormatContextRetrieval.MissingFileAborts | context_retrieval/format_context_retrieval.py:35-36 | a file that cannot be opened stops the whole report with an exception |
| FormatContextRetrieval.Report | context_retrieval/format_context_retrieval.py:33-36 | a report is produced only if every listed file exists |
| FormatContextRetrieval.NumberedBlocksOfConcat | context_retrieval/format_context_retrieval.py:30-56 | numbering continues from one part of the list of bugs into the next |
| FormatContextRetrieval.ReportOkMeansAllResolved | context_retrieval/format_context_retrieval.py:41-42 | a report is produced only if every file exists and every location lies within a declaration, so no partial block is produced |
| FormatContextRetrieval.InfoBlockOkResolves | context_retrieval/format_context_retrieval.py:42 | a block renders only for a location that a declaration encloses |
| FormatContextRetrieval.InvalidRangeRunsIntoNextLabel | context_retrieval/format_context_retrieval.py:52-53 | an invalid range renders as `Bug lines: []` with the next label straight after it |
| FormatContextRetrieval.BlockHead | context_retrieval/format_context_retrieval.py:49-54 | the fields open with the bug's number and file path lines and close with the buggy node's line |
| FormatContextRetrieval.InfoBlock | context_retrieval/format_context_retrieval.py:40-57 | a block raises only `FileNotFoundError`, `TypeError` or `UnicodeDecodeError`, `FileNotFoundError` exactly when the file is missing; a rendered block belongs to a location inside a declaration and opens with the bug's number and file path |
| FormatContextRetrieval.RenderInfoBlock | context_retrieval/format_context_retrieval.py:41-57 | one bug's block: the six fields in order, the comment found for the node or `No comments found`, then a blank line |
| FormatContextRetrieval.FormatFileBlocks | context_retrieval/format_context_retrieval.py:37-57 | the loop over one file's bugs renders its blocks, numbered from the current counter |
| FormatContextRetrieval.FormatInfo | context_retrieval/format_context_retrieval.py:28-58 | `format_info` computes the report numbered from 1 |
| FormatContextRetrieval.CallerEntries | context_retrieval/format_context_retrieval.py:77-79 | one line per caller |
| FormatContextRetrieval.CallerEntriesAt | context_retrieval/format_context_retrieval.py:77-79 | line `i` renders caller `i` as `    - Line n: text` |
| FormatContextRetrieval.CalleeEntriesAt | context_retrieval/format_context_retrieval.py:83-85 | line `i` renders callee `i` as `    - "name" method called at line n: text` |
| FormatContextRetrieval.CallgraphReport | context_retrieval/format_context_retrieval.py:62-87 | the result is exactly `Error: Could not load CPG` if and only if the graph of `test_program` does not exist |
| FormatContextRetrieval.CallgraphTextLines | context_retrieval/format_context_retrieval.py:74-87 | the section splits into the callers header, one line per caller in order, the callees header, and one line per callee in order |
| FormatContextRetrieval.CallgraphText | context_retrieval/format_context_retrieval.py:74-87 | the section opens with the callers' header line and also holds the callees' header line |
| FormatContextRetrieval.RenderCallers | context_retrieval/format_context_retrieval.py:77-79 | the callers loop appends one terminated line per caller |
| FormatContextRetrieval.RenderCallees | context_retrieval/format_context_retrieval.py:83-85 | the callees loop appends one terminated line per callee |
| FormatContextRetrieval.FormatCallgraphInfo | context_retrieval/format_context_retrieval.py:62-87 | a fresh session loads `test_program`, then the callers and the callees sessions report are rendered; the load error otherwise |
| PatchingFormatContext.ContextSectionAlwaysRaises | patching_agents/format_context_retrieval.py:59-64 | as written, the context-retrieval section always raises `TypeError` |
| PatchingFormatContext.ContextSectionAsWritten | patching_agents/format_context_retrieval.py:59-64 | the only exception the section raises is `TypeError` |
| PatchingFormatContext.FormatDdgInfo | patching_agents/format_context_retrieval.py:99-101 | a call with arguments raises `TypeError`; a call without them returns `None` |
| PatchingFormatContext.PlaceholderDdgRaises | patching_agents/format_context_retrieval.py:99-101 | calling the data-dependence placeholder without arguments would not help: adding its `None` raises too |
| PatchingFormatContext.TextLookupFindsNoComment | patching_agents/format_context_retrieval.py:38-50 | since the node has been replaced by its text, the comments are always `No comments found` |
| PatchingFormatContext.ContextRetrievalBlockRaises | patching_agents/format_context_retrieval.py:45-51 | as written, a "context retrieval" block never renders |
| PatchingFormatContext.PatchBlock | patching_agents/format_context_retrieval.py:35-56 | a block raises only `FileNotFoundError`, `TypeError` or `UnicodeDecodeError`, `FileNotFoundError` exactly when the file is missing; a rendered block belongs to a location inside a declaration and opens with the bug's number and file path |
| PatchingFormatContext.PatchBlockCorrected | patching_agents/format_context_retrieval.py:35-56 | the same three properties hold for the corrected block |
| PatchingFormatContext.ContextRetrievalReportNeedsNoBugs | patching_agents/format_context_retrieval.py:23-57 | as written, a "context retrieval" report is produced only for input without a bug location |
| PatchingFormatContext.OtherContextsAddNothing | patching_agents/format_context_retrieval.py:52-54 | every context type other than "context retrieval", "api database retrieval" included, renders the same block |
| PatchingFormatContext.PlainBlockIsInfoBlockWithoutComments | patching_agents/format_context_retrieval.py:39-44 | outside "context retrieval" the block holds the bug-context block's fields up to its comments line, in the same order, then the closing line break |
| PatchingFormatContext.CorrectedBlockExtendsInfoBlock | patching_agents/format_context_retrieval.py:45-51 | corrected, a "context retrieval" block renders exactly when the bug-context block does, and it is that block with the call-graph section inserted before the closing blank line |
| PatchingFormatContext.FormatContextSection | patching_agents/format_context_retrieval.py:59-64 | `format_context_retrieval` computed step by step: comments line, call-graph section, then the failing data-dependence call |
| PatchingFormatContext.RenderPatchBlock | patching_agents/format_context_retrieval.py:35-56 | one bug's block, with the context-type dispatch |
| PatchingFormatContext.FormatPatchFileBlocks | patching_agents/format_context_retrieval.py:32-56 | the loop over one file's bugs, numbered from the current counter |
| PatchingFormatContext.FormatContext | patching_agents/format_context_retrieval.py:23-57 | `format_context` computes the report numbered from 1 across files |
| TestSuitesHelpers.ClassFileSpellsPackage | test_suites/test_suites_helpers.py:12 | the class file is the class name with each `.` turned into `/`, then `.java` |
| TestSuitesHelpers.ConnectPaths | test_suites/test_suites_helpers.py:10-14 | a path is found exactly when the lower-cased project has an entry, it ends with the class file, and a missing project raises `TypeError` |
| TestSuitesHelpers.ConnectPathsLayout | test_suites/test_suites_helpers.py:10-14 | a path results if and only if the lower-cased project is in the table; for plain segments it is `dir/root/class-file` |
| TestSuitesHelpers.RootTablesCoverProjects | test_suites/test_suites_helpers.py:126-133 | both tables know exactly the six projects, and every root is a plain relative path |
| TestSuitesHelpers.FullSourcePathLayout | test_suites/test_suites_helpers.py:114-137 | a source path exists if and only if the project is one of the six, and it is directory, source root and class file |
| TestSuitesHelpers.FullSourcePath | test_suites/test_suites_helpers.py:114-137 | the path is found exactly for the six known projects and ends with the class file; any other project raises `TypeError` |
| TestSuitesHelpers.FullTestPathLayout | test_suites/test_suites_helpers.py:191-204 | the same for the test path and the test root |
| TestSuitesHelpers.FullTestPath | test_suites/test_suites_helpers.py:191-204 | the path is found exactly for the six known projects and ends with the test's class file; any other project raises `TypeError` |
| TestSuitesHelpers.NoHeaderNoSources | test_suites/test_suites_helpers.py:88-94 | without the header line no source is collected |
| TestSuitesHelpers.ScanSkipsToHeader | test_suites/test_suites_helpers.py:92-94 | lines before the first header are ignored |
| TestSuitesHelpers.ScanCollectsSection | test_suites/test_suites_helpers.py:97-102 | inside the section every `- ` line contributes its stripped remainder, in order, up to the first empty line |
| TestSuitesHelpers.SectionEntries | test_suites/test_suites_helpers.py:85-104 | the listed sources are the entries between the first header and the first empty line after it |
| TestSuitesHelpers.NoHeaderNoModifiedSources | test_suites/test_suites_helpers.py:80-104 | output without the header lists nothing |
| TestSuitesHelpers.GetModifiedSources | test_suites/test_suites_helpers.py:62-111 | a failed run gives `[]`; otherwise the result of the line scan |
| TestSuitesHelpers.ScanLines | test_suites/test_suites_helpers.py:85-104 | the loop with the section flag, `continue` and `break` computes the scan |
| TestSuitesHelpers.Scan | test_suites/test_suites_helpers.py:88-102 | the scan collects at most one source per line |
| TestSuitesHelpers.ScanEntriesStripped | test_suites/test_suites_helpers.py:89-98 | every source the scan collects is stripped |
| TestSuitesHelpers.ModifiedSources | test_suites/test_suites_helpers.py:80-107 | at most one source per line of the output, each stripped |
| TestSuitesHelpers.SegmentEnd | test_suites/test_suites_helpers.py:158-165 | the segment ends at the next `---` after its first character, or at the end of the text |
| TestSuitesHelpers.SegmentRunsToNextMark | test_suites/test_suites_helpers.py:149-165 | a segment exists exactly when `--- test` occurs; it starts with that marker and holds no other `---` |
| TestSuitesHelpers.SegmentsFromCoverTests | test_suites/test_suites_helpers.py:147-169 | the loop raises `NameError` exactly when some test has no marker; otherwise every test maps to its segment |
| TestSuitesHelpers.GetEachFailingTestInfo | test_suites/test_suites_helpers.py:144-169 | the dictionary-filling loop, as written |
| TestSuitesHelpers.SegmentsFrom | test_suites/test_suites_helpers.py:147-169 | the only exception is `NameError`, and the tests already recorded stay recorded |
| TestSuitesHelpers.MissingMarkerRaises | test_suites/test_suites_helpers.py:152-155 | one test without a marker makes the call raise `NameError` |
| TestSuitesHelpers.CorrectedSegmentsCoverTests | test_suites/test_suites_helpers.py:152-155 | corrected, every test gets an entry, its segment or `""`, and the corrected result agrees with the written one whenever that succeeds |
| TestSuitesHelpers.CorrectedKeepsUnlisted | test_suites/test_suites_helpers.py:145 | corrected, entries for keys that no remaining test names are kept |
| TestSuitesHelpers.CorrectedMissingMarker | test_suites/test_suites_helpers.py:152-155 | corrected, a test without a marker maps to `""` |
| TestSuitesHelpers.SingleLineHasNoMessage | test_suites/test_suites_helpers.py:185-188 | a single line has no failure message |
| TestSuitesHelpers.FailureMessageIsSecondLine | test_suites/test_suites_helpers.py:182-186 | the message is the stripped second line when the text ends there |
| TestSuitesHelpers.FailureMessageIgnoresLaterLines | test_suites/test_suites_helpers.py:182-186 | and also when more lines follow |
| TestSuitesHelpers.FailureMessage | test_suites/test_suites_helpers.py:182-188 | the message is a single stripped line |
| TestSuitesHelpers.LineNumberFieldOfFrame | test_suites/test_suites_helpers.py:236-239 | for a frame `pre(File.java:42)` the field read is `42` |
| TestSuitesHelpers.LineNumberField | test_suites/test_suites_helpers.py:236-239 | a field is found only on a line with both parentheses, and it holds no colon |
| TestSuitesHelpers.FirstFieldIsFirst | test_suites/test_suites_helpers.py:232-240 | the field comes from the first frame line that has one, and there is none exactly when no line has one |
| TestSuitesHelpers.MethodAndLineParts | test_suites/test_suites_helpers.py:220-228 | an identifier that is not `Class::method` gives `("", "", 0)`; otherwise the search runs with `::` replaced by `.` |
| TestSuitesHelpers.TwoPartsRejoin | test_suites/test_suites_helpers.py:220-225 | an identifier with exactly two `::` parts is those parts joined by `::` |
| TestSuitesHelpers.Located | test_suites/test_suites_helpers.py:238-240 | a frame yields the class and method it was given, and an unreadable number raises `ValueError` |
| TestSuitesHelpers.LongLineNumberRaises | test_suites/test_suites_helpers.py:239 | a frame's line number of more than 4300 digits makes `int()` raise `ValueError` |
| TestSuitesHelpers.MethodAndLine | test_suites/test_suites_helpers.py:219-242 | the only exception is `ValueError`, and a result is either the `("", "", 0)` fallback or names the identifier's class and method |
| TestSuitesHelpers.LocatedFromFirstFrame | test_suites/test_suites_helpers.py:232-242 | the number is -1 when no frame line has a field; otherwise it is the first field read as an integer, and a field that is not an integer raises `ValueError` |
| TestSuitesHelpers.FrameLineNumber | test_suites/test_suites_helpers.py:233-239 | the tests of the loop body on one line compute its field |
| TestSuitesHelpers.LocateInLines | test_suites/test_suites_helpers.py:231-242 | the loop with its early return gives the located result |
| TestSuitesHelpers.GetFailingTestMethodAndLine | test_suites/test_suites_helpers.py:207-242 | `get_failing_test_method_and_line` as a whole |
| Numerals.ParseIntOfIntToString | test_suites/test_suites_helpers.py:239 | `int(str(n)) == n` for every integer of at most 4300 digits, the range in which CPython's `str()` and `int()` convert |
| Numerals.ParseIntRejectsLong | test_suites/test_suites_helpers.py:239 | digits beyond the 4300-digit limit make `int()` raise `ValueError`, with or without a sign |
| Numerals.DigitCountBelow | test_suites/test_suites_helpers.py:239 | a number has at most `k` decimal digits exactly when its magnitude is below `10^k` |
| Numerals.ParseInt | test_suites/test_suites_helpers.py:239 | the only exception `int()` raises here is `ValueError`; the model reads at most 4300 digits, not counting underscores |
| ApiDbRetrieval.TrimImport | api_db/api_db_retrieval.py:32 | `snippet[7:-1]`: eight characters shorter (empty for up to eight), character `i` being the snippet's `i + 7` |
| ApiDbRetrieval.TrimImportOfDeclaration | api_db/api_db_retrieval.py:32 | trimming `import <name>;` gives `<name>` |
| ApiDbRetrieval.TrimEachAll | api_db/api_db_retrieval.py:29-33 | the names exist exactly when every node's text is read; each name is the trimmed text of its node, in order; a failure is some node's failure |
| ApiDbRetrieval.ImportedApisTrimEach | api_db/api_db_retrieval.py:29-33 | for a file: one trimmed name per import node in capture order, and a failure is a decoding error |
| ApiDbRetrieval.ImportedApis | api_db/api_db_retrieval.py:29-33 | the only exception the extraction raises is `UnicodeDecodeError` |
| ApiDbRetrieval.LaterNodesKeepError | api_db/api_db_retrieval.py:31 | once a node fails to decode, later nodes do not change the outcome |
| ApiDbRetrieval.AppendCapture | api_db/api_db_retrieval.py:30-33 | the inner loop over one capture list extends the names |
| ApiDbRetrieval.RetrieveExistingApis | api_db/api_db_retrieval.py:17-35 | a missing file raises `FileNotFoundError`; otherwise the trimmed names of all import declarations, in capture order |
| ApiDbRetrieval.FlattenAppend | api_db/api_db_retrieval.py:29-30 | walking the capture lists one after another is walking their concatenation |
| ApiDbRetrieval.QueryApiDb | api_db/api_db_retrieval.py:49-62 | the loop over a copy of the list computes the merge |
| ApiDbRetrieval.Merge | api_db/api_db_retrieval.py:55-60 | the merge raises only `KeyError` or `IndexError`, and a result starts with the given APIs unchanged |
| ApiDbRetrieval.MergeFails | api_db/api_db_retrieval.py:56 | the query raises exactly when a category about to be processed is absent (`KeyError`) or empty (`IndexError`) |
| ApiDbRetrieval.FirstFailingCategory | api_db/api_db_retrieval.py:55-56 | a failed merge has a first unknown or empty category, every category before it is known and non-empty, and it decides between `KeyError` and `IndexError` |
| ApiDbRetrieval.MergeCovers | api_db/api_db_retrieval.py:51-60 | the result starts with the given APIs, lists the first entry of every requested category, and holds nothing else than given APIs and entries of requested categories |
| ApiDbRetrieval.MergeLength | api_db/api_db_retrieval.py:51-62 | the result is at least as long as the given list and at most longer by the sizes of all requested categories |
| ApiDbRetrieval.MergeIdempotent | api_db/api_db_retrieval.py:55-57 | asking again for the same categories adds nothing |
| ApiDbRetrieval.AllListedSkipped | api_db/api_db_retrieval.py:56-57 | categories whose first entries are all listed are all skipped |
| ApiDbRetrieval.AppendsDuplicates | api_db/api_db_retrieval.py:58-60 | a category is appended whole even when a later entry of it is already listed |
| ApiDbRetrieval.SkipSeesEarlierCategories | api_db/api_db_retrieval.py:55-57 | the skip test sees entries appended earlier in the same call |
| MessageHistory.RoundsCountsAssistants | patching_agents/message_history.py:42-50 | the round count is the number of positions holding an assistant message |
| MessageHistory.RoundsAppend | patching_agents/message_history.py:42-50 | the rounds of two parts of a thread add up |
| MessageHistory.RoundsBound | patching_agents/message_history.py:42-50 | there are never more rounds than messages |
| MessageHistory.PromptAddsNoRound | patching_agents/message_history.py:14-20 | a prompt never completes a round |
| MessageHistory.AgentAddsRoundIffAssistant | patching_agents/message_history.py:22-29 | an agent message completes a round exactly when its role is `assistant` |
| MessageHistory.RolesAppend | patching_agents/message_history.py:14-29 | one more message leaves every message with a role exactly when it has one itself |
| MessageHistory.MessageHistory.constructor | patching_agents/message_history.py:11-12 | no list, or an empty one, gives an empty thread; any other list is the thread, including dictionaries without a `"role"` key |
| MessageHistory.MessageHistory.AddPrompt | patching_agents/message_history.py:14-20 | appends exactly `{"role": "prompt", "content": message}`, ignoring the role argument; the round count is unchanged, and so is whether every message has a role |
| MessageHistory.MessageHistory.AddAgent | patching_agents/message_history.py:22-29 | appends exactly one message under the given role; the count goes up by one exactly for `assistant`, and whether every message has a role is unchanged |
| MessageHistory.MessageHistory.ToMsg | patching_agents/message_history.py:31-37 | the stored thread itself |
| MessageHistory.MessageHistory.GetRoundNumber | patching_agents/message_history.py:42-50 | `KeyError` exactly when some message has no `"role"` key; otherwise the number of assistant messages, which is at most the number of messages |
| InfoDict.Prompt | patching_agents/info_dict.py:26-31 | the prompt's length is that of its fixed parts plus the system task and the buggy code |
| InfoDict.Str | patching_agents/info_dict.py:26-31 | a text value is embedded as it is; a list of locations prints in brackets |
| InfoDict.PromptEmbeds | patching_agents/info_dict.py:26-31 | the prompt holds the system task and the buggy code verbatim, each at its place |
| InfoDict.InfoDict.constructor | patching_agents/info_dict.py:7-8 | a new table has exactly the keys `system task`, `repo path` and `bug locations`, each mapped to `""` |
| InfoDict.InfoDict.AddInfo | patching_agents/info_dict.py:15-16 | sets or overwrites one key, and every other entry stays as it was |
| InfoDict.InfoDict.CreateInfoDict | patching_agents/info_dict.py:10-13 | its three arguments under the three initial keys, every other entry unchanged |
| InfoDict.InfoDict.GetInfo | patching_agents/info_dict.py:18-19 | the value stored under the key, and `KeyError` exactly when the key is absent |
| InfoDict.InfoDict.FormatAsPrompt | patching_agents/info_dict.py:21-31 | a prompt is produced if and only if both the system task and the buggy code are stored, and it is built from them; `KeyError` otherwise |
| InfoDict.BuggyCodeNotInitial | patching_agents/info_dict.py:8-13 | neither construction nor `create_info_dict` writes the `buggy code` key |
| InfoDict.CreatedTableCannotFormat | patching_agents/info_dict.py:21-23 | a new table filled by `create_info_dict` raises `KeyError` when formatted |

## Left out

- Process and file I/O: `JoernSession.create_cpg`, the `subprocess.Popen` call of `_run_joern_query`, the `defects4j checkout` and `info` runs, `shutil.copy2` and `os.makedirs`. Process results and file contents are parameters instead.
- Tree-sitter parsing and `Query.matches`/`captures`: a file's nodes are given in pre-order and a query filters them by type. The parser itself is not modelled.
- `json.loads`/`json.load` are an opaque partial function. JSON floats are not among the modelled values.
- The meaning of the Joern queries over the code property graph. Only their text and the parsing of the transcript are modelled.
- `os.getenv` overrides of the Joern paths and of the Java file path: the defaults are constants.
- `get_api_db_path` and reading `api_db.json`: the database is a parameter `map<string, seq<string>>`. An entry that is not a list of strings is not modelled.
- `MessageHistory.__str__` (`pformat`) is not modelled. It is formatting only.
- MessageHistory.MessageHistory.constructor: a non-empty list is stored by value, so the model does not capture that the caller's list is shared with the history, nor the same aliasing in `to_msg`.
- ApiDbRetrieval.MergeLength: states bounds on the length rather than the exact count of `len(current_apis)` plus the sizes of the categories that were not skipped.
- Lower-casing of project names is modelled for ASCII letters only.
- JsonValues.ReprString: escapes the backslash, the quote, `\t`, `\n`, `\r`, the control characters and a fixed set of separator, format and private-use code points. Other code points that Python's `str.isprintable` rejects, such as unassigned ones, are copied unescaped, because the Unicode character database is not modelled.
- Numerals.IntToString: prints every integer. CPython's `str()` raises `ValueError` for an integer of more than 4300 digits, and the renderers that print bug numbers, line numbers and JSON integers do not model that exception.
- Numerals.ParseInt: accepts ASCII digits only. Python's `int()` also reads other Unicode decimal digits such as U+0661 for 1, which the model rejects with `ValueError`.
- The unused imports of `info_dict.py` (`cgi`, the GPT client, the message history) and its printing are not modelled.
- All `print` diagnostics. They are logging only.
- `test_suites/test_suites.py`, the agent classes and the GPT client, `patching_agents/example.py`, `prompt_templates.py`. They are orchestration, network-bound or driver code outside the modelled core.
- `test_programs/test_program.java` is fixture data and is not part of this model.
- `format_ddg_info` and `format_api_database_retrieval` are placeholders whose bodies return `None`. The model uses them only where `format_context_retrieval` calls them.
- In the patching report, the text of a comment found for a node is modelled but never reaches the output as written, because the section raises before returning.

## Findings

| source | as written | input that shows it | evidently intended | confidence | as-written member | corrected member |
|---|---|---|---|---|---|---|
| patching_agents/format_context_retrieval.py:63 | `format_ddg_info(java_file_path, bug_location)` calls a function defined without parameters (line 99), so the call raises `TypeError` | `format_context("context retrieval", files)` for any file with a bug location inside a declaration | the section holds the comments line and the call-graph section; the data-dependence part contributes nothing until implemented | high; not executed | PatchingFormatContext.ContextRetrievalBlockRaises | PatchingFormatContext.CorrectedBlockExtendsInfoBlock |
| patching_agents/format_context_retrieval.py:38 | `buggy_node` is rebound to its text before the comment lookup at line 46, whose attribute access then fails and is caught, so the comments are always `No comments found` | a bug in a method preceded by a comment that ends on the row before it | the lookup is given the node, as in the bug-context assembler | high; not executed | PatchingFormatContext.TextLookupFindsNoComment | PatchingFormatContext.CorrectedBlockExtendsInfoBlock |
| test_suites/test_suites_helpers.py:154 | a test without a `--- test` marker reaches `all_info.append(...)`, a name that is never defined, and raises `NameError` | `get_each_failing_test_info(["Test::run"], "")` | the test is recorded with the empty string, as the comment on line 153 says | high; not executed | TestSuitesHelpers.MissingMarkerRaises | TestSuitesHelpers.CorrectedSegmentsCoverTests |
