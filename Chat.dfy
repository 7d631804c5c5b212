/** The chat transcript kept in `st.session_state.messages`, and what one run of
    the script does to it. */
module Chat {
  import opened Basics

  datatype Role = User | Assistant

  datatype Turn = Turn(role: Role, content: string)

  /** The example-question buttons of the sidebar, in display order. */
  const ExampleQuestions: seq<string> := [
    "Quantas notas fiscais temos?",
    "Qual o valor total dos itens da nota fiscal com CHAVE DE ACESSO X?",
    "Liste os itens da nota fiscal com CHAVE DE ACESSO Y",
    "Qual a quantidade total de um determinado produto (descreva o produto)?",
    "Qual nota fiscal tem mais itens?"
  ]

  /** What the user did before one run of the script. `Ask` carries the question
      and the reply `query_ai` produced for it (the remote model is not modelled);
      `PickExample` names a sidebar button by position. */
  datatype Action = Idle | Ask(prompt: string, reply: string) | ClearChat | PickExample(index: nat)

  /** The turns an action appends, in order. An empty question is falsy, so the
      chat input is ignored and nothing is appended. */
  function TurnsOf(action: Action): seq<Turn>
  {
    match action
    case Ask(prompt, reply) => if prompt != "" then [Turn(User, prompt), Turn(Assistant, reply)] else []
    case PickExample(i) => if i < |ExampleQuestions| then [Turn(User, ExampleQuestions[i])] else []
    case _ => []
  }

  /** The history after one run. With the data loaded, the history is created empty
      when absent, then the action appends its turns or clears it. When loading
      failed, an existing history is emptied and an absent one stays absent. */
  function AfterRun(history: Option<seq<Turn>>, loaded: bool, action: Action): (r: Option<seq<Turn>>)
    ensures !loaded ==> r == if history.Some? then Some([]) else None
    ensures loaded ==> r.Some?
    ensures loaded && action.ClearChat? ==> r == Some([])
    ensures loaded && !action.ClearChat? && history.Some? ==> history.value <= r.value
    ensures loaded && !action.ClearChat? ==> |r.value| == |if history.Some? then history.value else []| + |TurnsOf(action)|
    ensures loaded && !action.ClearChat? ==> r.value[|if history.Some? then history.value else []|..] == TurnsOf(action)
  {
    if !loaded then
      (if history.Some? then Some([]) else None)
    else
      var current := if history.None? then [] else history.value;
      if action.ClearChat? then Some([]) else Some(current + TurnsOf(action))
  }

  /** Runs of the script with the data loaded (the load is cached for the process). */
  function Replay(history: Option<seq<Turn>>, actions: seq<Action>): Option<seq<Turn>>
    decreases |actions|
  {
    if |actions| == 0 then history else Replay(AfterRun(history, true, actions[0]), actions[1..])
  }

  /** Every turn the actions append, in order. */
  function AllTurns(actions: seq<Action>): seq<Turn>
    decreases |actions|
  {
    if |actions| == 0 then [] else TurnsOf(actions[0]) + AllTurns(actions[1..])
  }

  /** Without a clear, the transcript is the old history followed by every appended
      turn in the order the actions happened. */
  lemma {:induction false} ReplayAppendsInOrder(history: seq<Turn>, actions: seq<Action>)
    requires forall k :: 0 <= k < |actions| ==> !actions[k].ClearChat?
    ensures Replay(Some(history), actions) == Some(history + AllTurns(actions))
    decreases |actions|
  {
    if |actions| > 0 {
      assert AfterRun(Some(history), true, actions[0]) == Some(history + TurnsOf(actions[0]));
      assert forall k :: 0 <= k < |actions[1..]| ==> actions[1..][k] == actions[k + 1];
      ReplayAppendsInOrder(history + TurnsOf(actions[0]), actions[1..]);
      assert history + TurnsOf(actions[0]) + AllTurns(actions[1..]) == history + AllTurns(actions);
    } else {
      assert history + AllTurns(actions) == history;
    }
  }

  /** A clear forgets everything before it. */
  lemma {:induction false} ClearForgetsHistory(history: Option<seq<Turn>>, before: seq<Action>, after: seq<Action>)
    ensures Replay(history, before + [ClearChat] + after) == Replay(Some([]), after)
    decreases |before|
  {
    if |before| == 0 {
      assert before + [ClearChat] + after == [ClearChat] + after;
      assert ([ClearChat] + after)[1..] == after;
    } else {
      assert (before + [ClearChat] + after)[1..] == before[1..] + [ClearChat] + after;
      ClearForgetsHistory(AfterRun(history, true, before[0]), before[1..], after);
    }
  }

  /** The session state that holds the transcript. */
  class Session {
    /** `st.session_state.messages`; None while the key is absent. */
    var messages: Option<seq<Turn>>

    constructor ()
      ensures messages == None
    {
      messages := None;
    }

    /** `if "messages" not in st.session_state: st.session_state.messages = []` */
    method InitHistory()
      modifies this
      ensures messages == if old(messages).None? then Some([]) else old(messages)
    {
      if messages.None? {
        messages := Some([]);
      }
    }

    /** `st.session_state.messages.append(turn)` */
    method Append(turn: Turn)
      requires messages.Some?
      modifies this
      ensures messages == Some(old(messages).value + [turn])
    {
      messages := Some(messages.value + [turn]);
    }

    /** The "clear chat" button. */
    method Clear()
      modifies this
      ensures messages == Some([])
    {
      messages := Some([]);
    }

    /** One run of the script, given whether the data loaded and what the user did. */
    method Run(loaded: bool, action: Action)
      modifies this
      ensures messages == AfterRun(old(messages), loaded, action)
    {
      if !loaded {
        if messages.Some? {
          messages := Some([]);
        }
        return;
      }
      InitHistory();
      match action
      case Idle =>
        assert messages.value + TurnsOf(action) == messages.value;
      case Ask(prompt, reply) =>
        if prompt != "" {
          ghost var current := messages.value;
          Append(Turn(User, prompt));
          Append(Turn(Assistant, reply));
          assert current + [Turn(User, prompt)] + [Turn(Assistant, reply)] == current + TurnsOf(action);
        } else {
          assert messages.value + TurnsOf(action) == messages.value;
        }
      case ClearChat =>
        Clear();
      case PickExample(i) =>
        if i < |ExampleQuestions| {
          Append(Turn(User, ExampleQuestions[i]));
        } else {
          assert messages.value + TurnsOf(action) == messages.value;
        }
    }
  }
}
