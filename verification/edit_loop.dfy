/**
 * The generation loop of the playground page (`handleAPIMessage`). The
 * source's handler is asynchronous: it updates the state, awaits the
 * generation backend and then updates the state again. The model splits it
 * at the await into `Submit` and `Resolve`; `InFlight` carries what the
 * handler's closure holds across the await.
 */
module EditLoop {

  import opened Wrappers
  import opened JsText
  import opened PlaygroundTypes

  /** The body of `POST /sessions/{id}/generate`. */
  datatype Payload = Payload(prompt: string, targetElement: Option<SelectedElement>)

  /** A request the backend has not answered yet, with the optimistic message it added. */
  datatype InFlight = InFlight(sessionId: string, payload: Payload, optimistic: ChatMessage)

  datatype Submitted = Submitted(state: Playground, request: Option<InFlight>)

  /** The backend's answer: the full updated session, or any failure of the call. */
  datatype Response = Generated(session: Session) | GenerationFailed

  /**
   * Start a generation for `prompt`, scoped to `target` when an element is
   * selected. `newId` is the identity of the new message object the handler
   * allocates. Dropped (state untouched, nothing sent) when the prompt is
   * blank, no session is active, or a generation is already running.
   */
  function Submit(p: Playground, prompt: string, target: Option<SelectedElement>, newId: MessageId): (r: Submitted)
    ensures IsBlank(prompt) || p.active.None? || p.isGenerating ==> r.state == p && r.request.None?
    ensures !IsBlank(prompt) && p.active.Some? && !p.isGenerating ==>
      && r.request.Some?
      && r.request.value.sessionId == p.active.value.id
      && r.request.value.payload.prompt == prompt
      && r.request.value.payload.targetElement == target
      && r.request.value.optimistic == ChatMessage(newId, User, prompt)
      && r.state.active.Some?
      && r.state.active.value.chatHistory == p.active.value.chatHistory + [ChatMessage(newId, User, prompt)]
      && r.state.active.value == p.active.value.(chatHistory := r.state.active.value.chatHistory)
      && r.state.isGenerating
      && r.state.sideTab == ChatTab
      && r.state.sessions == p.sessions
      && r.state.selected == p.selected
      && r.state.editingSessionId == p.editingSessionId
  {
    if IsBlank(prompt) || p.active.None? || p.isGenerating then
      Submitted(p, None)
    else
      var message := ChatMessage(newId, User, prompt);
      var current := p.active.value;
      var state := p.(
        active := Some(current.(chatHistory := current.chatHistory + [message])),
        isGenerating := true,
        sideTab := ChatTab);
      Submitted(state, Some(InFlight(current.id, Payload(prompt, target), message)))
  }

  /** The prompt the properties panel sends when the text field loses focus. */
  function TextEditPrompt(text: string): (prompt: string)
    ensures !IsBlank(prompt)
    ensures |prompt| == |text| + 21 && prompt[20..20 + |text|] == text
  {
    var prompt := "change the text to \"" + text + "\"";
    NotBlankWhenVisible(prompt, 0);
    prompt
  }

  /** The prompt the properties panel sends when a background colour is picked. */
  function BackgroundEditPrompt(color: string): (prompt: string)
    ensures !IsBlank(prompt)
    ensures |prompt| == |color| + 31 && prompt[31..] == color
  {
    var prompt := "change the background color to " + color;
    NotBlankWhenVisible(prompt, 0);
    prompt
  }

  /**
   * An edit from the properties panel is never dropped as blank: with a
   * session active and nothing generating, it is sent, scoped to the selection.
   */
  lemma PanelEditsAreSent(p: Playground, text: string, newId: MessageId)
    requires p.active.Some? && !p.isGenerating
    ensures Submit(p, TextEditPrompt(text), p.selected, newId).request.Some?
    ensures Submit(p, BackgroundEditPrompt(text), p.selected, newId).request.Some?
    ensures Submit(p, TextEditPrompt(text), p.selected, newId).request.value.payload.targetElement == p.selected
    ensures Submit(p, BackgroundEditPrompt(text), p.selected, newId).request.value.payload.targetElement == p.selected
  {
  }

  /**
   * Apply the backend's answer to the state as it is when the answer arrives
   * (the source uses functional state updates here). Success makes the
   * response session active whatever was active, replaces list entries with
   * the same `_id`, and clears the selection. Failure drops the optimistic
   * message, by identity, from whatever session is active then.
   */
  function Resolve(p: Playground, flight: InFlight, response: Response): (r: Playground)
    ensures !r.isGenerating
    ensures r.sideTab == p.sideTab && r.editingSessionId == p.editingSessionId
    ensures response.Generated? ==>
      && r.active == Some(response.session)
      && |r.sessions| == |p.sessions|
      && (forall i :: 0 <= i < |p.sessions| && p.sessions[i].id != response.session.id ==> r.sessions[i] == p.sessions[i])
      && (forall i :: 0 <= i < |p.sessions| && p.sessions[i].id == response.session.id ==> r.sessions[i] == response.session)
      && r.selected.None?
    ensures response.GenerationFailed? ==>
      && r.sessions == p.sessions
      && r.selected == p.selected
      && r.active.Some? == p.active.Some?
      && (p.active.Some? ==>
            && r.active.value == p.active.value.(chatHistory := r.active.value.chatHistory)
            && r.active.value.chatHistory == RemoveMessage(p.active.value.chatHistory, flight.optimistic)
            && (forall m :: m in r.active.value.chatHistory <==>
                              m in p.active.value.chatHistory && m.id != flight.optimistic.id))
  {
    match response
    case Generated(session) =>
      p.(active := Some(session),
         sessions := ReplaceById(p.sessions, session.id, session),
         selected := None,
         isGenerating := false)
    case GenerationFailed =>
      var active :=
        if p.active.None? then None
        else Some(p.active.value.(chatHistory := RemoveMessage(p.active.value.chatHistory, flight.optimistic)));
      p.(active := active, isGenerating := false)
  }

  /**
   * Rollback: a failed generation that nothing interleaved with leaves the
   * state exactly as before the submit, except that the chat tab is shown.
   */
  lemma SubmitThenFailureRestores(p: Playground, prompt: string, target: Option<SelectedElement>, newId: MessageId)
    requires !IsBlank(prompt) && p.active.Some? && !p.isGenerating
    requires IdAbsent(p.active.value.chatHistory, newId)
    ensures var s := Submit(p, prompt, target, newId);
      Resolve(s.state, s.request.value, GenerationFailed) == p.(sideTab := ChatTab)
  {
    var s := Submit(p, prompt, target, newId);
    RemoveAppendedMessage(p.active.value.chatHistory, s.request.value.optimistic);
  }

  /**
   * On success the response supersedes the optimistic message: the active
   * session is the backend's session as sent, whatever history it carries.
   */
  lemma SubmitThenSuccess(p: Playground, prompt: string, target: Option<SelectedElement>, newId: MessageId, session: Session)
    requires !IsBlank(prompt) && p.active.Some? && !p.isGenerating
    ensures var s := Submit(p, prompt, target, newId);
      Resolve(s.state, s.request.value, Generated(session))
        == p.(active := Some(session),
              sessions := ReplaceById(p.sessions, session.id, session),
              selected := None,
              sideTab := ChatTab)
    ensures Listed(p.sessions, session.id) ==>
      Listed(Resolve(Submit(p, prompt, target, newId).state, Submit(p, prompt, target, newId).request.value,
                     Generated(session)).sessions, session.id)
  {
    var s := Submit(p, prompt, target, newId);
    var r := Resolve(s.state, s.request.value, Generated(session));
    if Listed(p.sessions, session.id) {
      var k :| 0 <= k < |p.sessions| && p.sessions[k].id == session.id;
      assert r.sessions[k] == session;
    }
  }

  /**
   * Rollback is by identity, not content: an earlier message with the same
   * role and text as the prompt survives a failed generation.
   */
  lemma FailureKeepsLookalikeMessages(p: Playground, flight: InFlight, m: ChatMessage)
    requires p.active.Some? && m in p.active.value.chatHistory
    requires m.role == flight.optimistic.role && m.content == flight.optimistic.content
    requires m.id != flight.optimistic.id
    ensures m in Resolve(p, flight, GenerationFailed).active.value.chatHistory
  {
  }

  /**
   * After the user switched to another session mid-flight, a failure leaves
   * that session's chat alone: the optimistic message was never in it.
   */
  lemma FailureOnOtherSessionIsHarmless(p: Playground, flight: InFlight)
    requires p.active.Some? && IdAbsent(p.active.value.chatHistory, flight.optimistic.id)
    ensures Resolve(p, flight, GenerationFailed) == p.(isGenerating := false)
  {
    RemoveAbsentMessage(p.active.value.chatHistory, flight.optimistic);
  }

  /** A second submit while the first is unanswered is dropped: single flight. */
  lemma SecondSubmitDropped(p: Playground, prompt1: string, prompt2: string,
                            t1: Option<SelectedElement>, t2: Option<SelectedElement>,
                            newId1: MessageId, newId2: MessageId)
    requires Submit(p, prompt1, t1, newId1).request.Some?
    ensures var s := Submit(p, prompt1, t1, newId1);
      Submit(s.state, prompt2, t2, newId2) == Submitted(s.state, None)
  {
  }
}
