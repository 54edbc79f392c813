/** The table of information handed to the patching agents, and the prompt it is turned into. */
module InfoDict {
  import opened Outcomes
  import opened Text
  import opened Numerals

  /** A stored value: a text, or a list of `(start, end)` bug locations. */
  datatype Info = Plain(text: string) | Locations(locations: seq<(int, int)>)

  const SystemTask := "system task"
  const RepoPath := "repo path"
  const BugLocations := "bug locations"
  const BuggyCode := "buggy code"

  /** The keys every table starts with. */
  const InitialEntries: map<string, Info> :=
    map[SystemTask := Plain(""), RepoPath := Plain(""), BugLocations := Plain("")]

  /** `str(value)` as an f-string splices it in: a text as it is, a list of pairs as
      `[(1, 2), (3, 4)]`. */
  function Str(v: Info): (r: string)
    ensures v.Plain? ==> r == v.text
    ensures v.Locations? ==> |r| >= 2 && r[0] == '[' && r[|r| - 1] == ']'
  {
    match v
    case Plain(s) => s
    case Locations(ls) =>
      "[" + Join(seq(|ls|, i requires 0 <= i < |ls| =>
                   "(" + IntToString(ls[i].0) + ", " + IntToString(ls[i].1) + ")"), ", ") + "]"
  }

  const TaskLine := "\n        The task of the system is: "
  const ContextLines := "\n\n        You are given the following context information:\n        - Buggy Code Lines: "
  const PromptEnd := "\n        "

  /** The prompt for a system task and the buggy code. */
  function Prompt(task: string, code: string): (r: string)
    ensures |r| == |TaskLine| + |task| + |ContextLines| + |code| + |PromptEnd|
  {
    TaskLine + task + ContextLines + code + PromptEnd
  }

  /** The prompt holds the system task and the buggy code verbatim, each at its place. */
  lemma PromptEmbeds(task: string, code: string)
    ensures var r := Prompt(task, code);
      r[|TaskLine|..|TaskLine| + |task|] == task
      && r[|TaskLine| + |task| + |ContextLines|..|r| - |PromptEnd|] == code
      && Contains(r, task) && Contains(r, code)
  {
    var r := Prompt(task, code);
    ContainsMiddle(TaskLine, task, ContextLines + code + PromptEnd);
    assert r == TaskLine + task + (ContextLines + code + PromptEnd);
    ContainsMiddle(TaskLine + task + ContextLines, code, PromptEnd);
  }

  class InfoDict {
    var entries: map<string, Info>

    /** `InfoDict()`: the three initial keys, each with an empty text. */
    constructor()
      ensures entries == InitialEntries
      ensures entries.Keys == {SystemTask, RepoPath, BugLocations}
      ensures forall k :: k in entries ==> entries[k] == Plain("")
    {
      entries := InitialEntries;
    }

    /** `add_info`: sets or overwrites one key; every other entry stays as it was. */
    method AddInfo(key: string, value: Info)
      modifies this
      ensures entries.Keys == old(entries).Keys + {key}
      ensures entries[key] == value
      ensures forall k :: k in old(entries) && k != key ==> entries[k] == old(entries)[k]
    {
      entries := entries[key := value];
    }

    /** `create_info_dict`: the system task, the repository path and the bug locations under the three
        initial keys. */
    method CreateInfoDict(systemTask: string, repoPath: string, bugLocations: seq<(int, int)>)
      modifies this
      ensures entries.Keys == old(entries).Keys + {SystemTask, RepoPath, BugLocations}
      ensures entries[SystemTask] == Plain(systemTask)
      ensures entries[RepoPath] == Plain(repoPath)
      ensures entries[BugLocations] == Locations(bugLocations)
      ensures forall k :: k in old(entries) && k !in {SystemTask, RepoPath, BugLocations} ==>
        entries[k] == old(entries)[k]
    {
      AddInfo(SystemTask, Plain(systemTask));
      AddInfo(RepoPath, Plain(repoPath));
      AddInfo(BugLocations, Locations(bugLocations));
    }

    /** `get_info`: the value stored under the key; an absent key raises `KeyError`. */
    function GetInfo(key: string): (r: Result<Info>)
      reads this
      ensures r.Ok? <==> key in entries
      ensures r.Ok? ==> r.value == entries[key]
      ensures r.Raise? ==> r.error == KeyError
    {
      if key in entries then Ok(entries[key]) else Raise(KeyError)
    }

    /** `format_as_prompt`: the prompt for the stored task and buggy code; it raises `KeyError`
        when either is missing. */
    function FormatAsPrompt(): (r: Result<string>)
      reads this
      ensures r.Ok? <==> SystemTask in entries && BuggyCode in entries
      ensures r.Raise? ==> r.error == KeyError
      ensures r.Ok? ==> r.value == Prompt(Str(entries[SystemTask]), Str(entries[BuggyCode]))
    {
      match GetInfo(SystemTask)
      case Raise(e) => Raise(e)
      case Ok(task) =>
        match GetInfo(BuggyCode)
        case Raise(e) => Raise(e)
        case Ok(code) => Ok(Prompt(Str(task), Str(code)))
    }
  }

  /** None of the keys the table starts with, nor those `create_info_dict` writes, is the
      buggy code: a table filled only by them cannot be formatted. */
  lemma BuggyCodeNotInitial()
    ensures BuggyCode !in InitialEntries
    ensures BuggyCode !in {SystemTask, RepoPath, BugLocations}
  {
    assert BuggyCode[0] != SystemTask[0] && BuggyCode[0] != RepoPath[0];
    assert BuggyCode[3] != BugLocations[3];
  }

  /** A new table filled by `create_info_dict` raises `KeyError` when formatted. */
  method CreatedTableCannotFormat(systemTask: string, repoPath: string, bugLocations: seq<(int, int)>)
    returns (r: Result<string>)
    ensures r == Raise(KeyError)
  {
    var table := new InfoDict();
    table.CreateInfoDict(systemTask, repoPath, bugLocations);
    BuggyCodeNotInitial();
    r := table.FormatAsPrompt();
  }
}
