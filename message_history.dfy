/** The thread of conversation with the model: messages are only ever appended, and the
    number of completed rounds is the number of assistant messages. */
module MessageHistory {
  import opened Outcomes

  /** One message of the thread, the dictionary `{"role": role, "content": content}`. A
      dictionary handed to the constructor need not have a `"role"` key: `None` stands for
      that. */
  datatype Message = Message(role: Option<string>, content: string)

  const PromptRole := "prompt"
  const AssistantRole := "assistant"

  /** The number of messages whose role is `assistant`. */
  function Rounds(messages: seq<Message>): nat
    decreases |messages|
  {
    if messages == [] then 0
    else Rounds(messages[..|messages| - 1]) + (if messages[|messages| - 1].role == Some(AssistantRole) then 1 else 0)
  }

  /** Every message of the thread has a `"role"` key. */
  predicate HasRoles(messages: seq<Message>) {
    forall i :: 0 <= i < |messages| ==> messages[i].role.Some?
  }

  /** One more message keeps every message's role exactly when it has one itself. */
  lemma RolesAppend(messages: seq<Message>, m: Message)
    ensures HasRoles(messages + [m]) <==> HasRoles(messages) && m.role.Some?
  {
    var t := messages + [m];
    assert t[|messages|] == m;
    assert forall i :: 0 <= i < |messages| ==> t[i] == messages[i];
  }

  /** The positions of the assistant messages. */
  function AssistantPositions(messages: seq<Message>): set<nat> {
    set i: nat | i < |messages| && messages[i].role == Some(AssistantRole)
  }

  /** The round count is the number of positions that hold an assistant message. */
  lemma {:induction false} RoundsCountsAssistants(messages: seq<Message>)
    ensures Rounds(messages) == |AssistantPositions(messages)|
    decreases |messages|
  {
    if messages != [] {
      var n := |messages| - 1;
      var init := messages[..n];
      RoundsCountsAssistants(init);
      var before := AssistantPositions(init);
      if messages[n].role == Some(AssistantRole) {
        assert AssistantPositions(messages) == before + {n};
      } else {
        assert AssistantPositions(messages) == before;
      }
    }
  }

  /** The rounds of two parts of a thread add up. */
  lemma {:induction false} RoundsAppend(a: seq<Message>, b: seq<Message>)
    ensures Rounds(a + b) == Rounds(a) + Rounds(b)
    decreases |b|
  {
    if b == [] {
      assert a + b == a;
    } else {
      var init := b[..|b| - 1];
      RoundsAppend(a, init);
      assert (a + b)[..|a + b| - 1] == a + init;
    }
  }

  /** There are never more rounds than messages. */
  lemma {:induction false} RoundsBound(messages: seq<Message>)
    ensures Rounds(messages) <= |messages|
    decreases |messages|
  {
    if messages != [] {
      RoundsBound(messages[..|messages| - 1]);
    }
  }

  /** A prompt never completes a round. */
  lemma PromptAddsNoRound(messages: seq<Message>, content: string)
    ensures Rounds(messages + [Message(Some(PromptRole), content)]) == Rounds(messages)
  {
    var m := messages + [Message(Some(PromptRole), content)];
    assert m[..|m| - 1] == messages;
    assert PromptRole[0] != AssistantRole[0];
  }

  /** An agent message completes a round exactly when its role is `assistant`. */
  lemma AgentAddsRoundIffAssistant(messages: seq<Message>, role: string, content: string)
    ensures Rounds(messages + [Message(Some(role), content)]) ==
      Rounds(messages) + (if role == AssistantRole then 1 else 0)
  {
    var m := messages + [Message(Some(role), content)];
    assert m[..|m| - 1] == messages;
  }

  class MessageHistory {
    var messages: seq<Message>

    /** `MessageHistory(messages)`: no list, or an empty one, gives an empty thread; any other
        list is the thread. */
    constructor(initial: Option<seq<Message>>)
      ensures messages == (if initial.None? then [] else initial.value)
    {
      messages := if initial.None? then [] else initial.value;
    }

    /** `add_prompt`: appends a prompt message; the role argument is not used. */
    method AddPrompt(role: string, message: string)
      modifies this
      ensures messages == old(messages) + [Message(Some(PromptRole), message)]
      ensures Rounds(messages) == Rounds(old(messages))
      ensures HasRoles(messages) <==> HasRoles(old(messages))
    {
      PromptAddsNoRound(messages, message);
      RolesAppend(messages, Message(Some(PromptRole), message));
      messages := messages + [Message(Some(PromptRole), message)];
    }

    /** `add_agent`: appends a message under the given role. */
    method AddAgent(role: string, message: string)
      modifies this
      ensures messages == old(messages) + [Message(Some(role), message)]
      ensures Rounds(messages) == Rounds(old(messages)) + (if role == AssistantRole then 1 else 0)
      ensures HasRoles(messages) <==> HasRoles(old(messages))
    {
      AgentAddsRoundIffAssistant(messages, role, message);
      RolesAppend(messages, Message(Some(role), message));
      messages := messages + [Message(Some(role), message)];
    }

    /** `to_msg`: the thread itself. */
    function ToMsg(): (r: seq<Message>)
      reads this
      ensures r == messages
    {
      messages
    }

    /** `get_round_number`: counts the assistant messages one by one; `message["role"]` raises
        `KeyError` at the first message without a role. */
    method GetRoundNumber() returns (r: Result<nat>)
      ensures r.Raise? <==> !HasRoles(messages)
      ensures r.Raise? ==> r.error == KeyError
      ensures r.Ok? ==> r.value == Rounds(messages) && r.value == |AssistantPositions(messages)|
      ensures r.Ok? ==> r.value <= |messages|
    {
      var completedRounds := 0;
      for i := 0 to |messages|
        invariant completedRounds == Rounds(messages[..i])
        invariant HasRoles(messages[..i])
      {
        assert messages[..i + 1] == messages[..i] + [messages[i]];
        RolesAppend(messages[..i], messages[i]);
        if messages[i].role.None? {
          return Raise(KeyError);
        }
        if messages[i].role == Some(AssistantRole) {
          completedRounds := completedRounds + 1;
        }
      }
      assert messages[..|messages|] == messages;
      RoundsCountsAssistants(messages);
      RoundsBound(messages);
      return Ok(completedRounds);
    }
  }
}
