/**
 * The playground's state: the user's sessions, the active one, whether a
 * generation request is in flight, the element picked in the preview, the
 * side tab shown, and the session whose name is being edited.
 */
module PlaygroundTypes {

  import opened Wrappers

  /**
   * Object identity of a chat message. The source removes the optimistic
   * message with `!==`, JavaScript reference inequality, so two messages with
   * the same role and content are still different objects; `id` records which.
   */
  type MessageId = nat

  datatype Role = User | Assistant

  datatype ChatMessage = ChatMessage(id: MessageId, role: Role, content: string)

  /** A session as the backend returns it: `_id`, `name`, the generated code and the chat. */
  datatype Session = Session(
    id: string,
    name: string,
    jsxCode: string,
    cssCode: string,
    chatHistory: seq<ChatMessage>)

  /** The computed-style snapshot (opaque CSS strings) and text of a clicked element. */
  datatype Styles = Styles(
    backgroundColor: string,
    color: string,
    fontSize: string,
    padding: string,
    textContent: Option<string>)

  datatype SelectedElement = SelectedElement(elementId: string, tagName: string, styles: Styles)

  /** A message posted from the preview frame to the host window. */
  datatype FrameMessage = FrameMessage(kind: string, elementId: string, tagName: string, styles: Styles)

  /** The `type` the host accepts as a selection event. */
  const ElementClick: string := "element-click"

  datatype SideTab = ChatTab | PropertiesTab

  datatype Playground = Playground(
    sessions: seq<Session>,
    active: Option<Session>,
    isGenerating: bool,
    selected: Option<SelectedElement>,
    sideTab: SideTab,
    editingSessionId: Option<string>)

  /** No message object of the history has this identity. */
  predicate IdAbsent(history: seq<ChatMessage>, id: MessageId)
  {
    forall i :: 0 <= i < |history| ==> history[i].id != id
  }

  /** Some session in the list carries this `_id`. */
  predicate Listed(sessions: seq<Session>, id: string)
  {
    exists i :: 0 <= i < |sessions| && sessions[i].id == id
  }

  /** Every session whose `_id` is `id` is replaced; the others are kept as they are. */
  function ReplaceById(sessions: seq<Session>, id: string, replacement: Session): (r: seq<Session>)
    ensures |r| == |sessions|
    ensures forall i :: 0 <= i < |r| && sessions[i].id != id ==> r[i] == sessions[i]
    ensures forall i :: 0 <= i < |r| && sessions[i].id == id ==> r[i] == replacement
    decreases |sessions|
  {
    if sessions == [] then []
    else
      [if sessions[0].id == id then replacement else sessions[0]]
      + ReplaceById(sessions[1..], id, replacement)
  }

  /** The sessions whose `_id` is not `id`, in their original order. */
  function RemoveById(sessions: seq<Session>, id: string): (r: seq<Session>)
    ensures |r| <= |sessions|
    ensures forall s :: s in r <==> s in sessions && s.id != id
    decreases |sessions|
  {
    if sessions == [] then []
    else
      (if sessions[0].id != id then [sessions[0]] else [])
      + RemoveById(sessions[1..], id)
  }

  /** The filter keeps relative order: it distributes over concatenation. */
  lemma {:induction false} RemoveByIdConcat(a: seq<Session>, b: seq<Session>, id: string)
    ensures RemoveById(a + b, id) == RemoveById(a, id) + RemoveById(b, id)
    decreases |a|
  {
    if a == [] {
      assert a + b == b;
    } else {
      assert (a + b)[1..] == a[1..] + b;
      RemoveByIdConcat(a[1..], b, id);
    }
  }

  /** Sessions with a different `_id` pass through the filter untouched. */
  lemma {:induction false} RemoveByIdKeepsOthers(sessions: seq<Session>, id: string)
    requires forall i :: 0 <= i < |sessions| ==> sessions[i].id != id
    ensures RemoveById(sessions, id) == sessions
    decreases |sessions|
  {
    if sessions != [] {
      RemoveByIdKeepsOthers(sessions[1..], id);
    }
  }

  /** The history without the message object `target` (compared by identity), in order. */
  function RemoveMessage(history: seq<ChatMessage>, target: ChatMessage): (r: seq<ChatMessage>)
    ensures |r| <= |history|
    ensures forall m :: m in r <==> m in history && m.id != target.id
    decreases |history|
  {
    if history == [] then []
    else
      (if history[0].id != target.id then [history[0]] else [])
      + RemoveMessage(history[1..], target)
  }

  /** The rollback filter keeps order and multiplicity: it distributes over concatenation. */
  lemma {:induction false} RemoveMessageConcat(a: seq<ChatMessage>, b: seq<ChatMessage>, target: ChatMessage)
    ensures RemoveMessage(a + b, target) == RemoveMessage(a, target) + RemoveMessage(b, target)
    decreases |a|
  {
    if a == [] {
      assert a + b == b;
    } else {
      assert (a + b)[1..] == a[1..] + b;
      RemoveMessageConcat(a[1..], b, target);
    }
  }

  /** A single message survives the filter exactly when it is not the target object. */
  lemma RemoveMessageSingle(m: ChatMessage, target: ChatMessage)
    ensures RemoveMessage([m], target) == (if m.id != target.id then [m] else [])
  {
    assert [m][1..] == [];
  }

  /** Removing a message that is not in the history changes nothing. */
  lemma {:induction false} RemoveAbsentMessage(history: seq<ChatMessage>, target: ChatMessage)
    requires IdAbsent(history, target.id)
    ensures RemoveMessage(history, target) == history
    decreases |history|
  {
    if history != [] {
      RemoveAbsentMessage(history[1..], target);
    }
  }

  /** Removing the message just appended restores the earlier history exactly. */
  lemma {:induction false} RemoveAppendedMessage(history: seq<ChatMessage>, target: ChatMessage)
    requires IdAbsent(history, target.id)
    ensures RemoveMessage(history + [target], target) == history
    decreases |history|
  {
    if history == [] {
      assert RemoveMessage([target], target) == [] + RemoveMessage([], target);
    } else {
      assert (history + [target])[1..] == history[1..] + [target];
      RemoveAppendedMessage(history[1..], target);
    }
  }
}
