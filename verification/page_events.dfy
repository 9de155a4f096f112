/**
 * The playground page as one state machine: every user action, backend
 * answer and frame message is an event, and the request awaiting the
 * backend is part of the state. Both places that call `handleAPIMessage`
 * (the chat form and the properties panel) pass the current selection as
 * the target, so a prompt event carries only the prompt.
 */
module PageEvents {

  import opened Wrappers
  import opened JsText
  import opened PlaygroundTypes
  import opened EditLoop
  import opened SessionList
  import opened Selection

  datatype Event =
    | SendPrompt(prompt: string, newId: MessageId)
    | BackendAnswered(response: Response)
    | FrameMessageArrived(message: FrameMessage)
    | DeselectClicked
    | SideTabClicked(tab: SideTab)
    | SessionClicked(index: nat)
    | NewSessionClicked(created: Option<Session>)
    | DeleteClicked(id: string, confirmed: bool, deleted: bool, created: Option<Session>)
    | RenameStarted(id: string)
    | RenameCancelled
    | RenameCommitted(id: string, name: string, renamed: Option<Session>)

  /** The page state and the generation request awaiting an answer, if any. */
  datatype World = World(page: Playground, pending: Option<InFlight>)

  function Step(w: World, e: Event): (r: World)
    ensures e.SendPrompt? && w.pending.None? ==>
      r == (var s := Submit(w.page, e.prompt, w.page.selected, e.newId); World(s.state, s.request))
    ensures e.BackendAnswered? ==>
      r == (if w.pending.None? then w else World(Resolve(w.page, w.pending.value, e.response), None))
    ensures !e.SendPrompt? && !e.BackendAnswered? ==> r.pending == w.pending
  {
    match e
    case SendPrompt(prompt, newId) =>
      var s := Submit(w.page, prompt, w.page.selected, newId);
      World(s.state, if s.request.Some? then s.request else w.pending)
    case BackendAnswered(response) =>
      if w.pending.None? then w else World(Resolve(w.page, w.pending.value, response), None)
    case FrameMessageArrived(m) => w.(page := ReceiveFrameMessage(w.page, m))
    case DeselectClicked => w.(page := Deselect(w.page))
    case SideTabClicked(tab) => w.(page := w.page.(sideTab := tab))
    case SessionClicked(i) => w.(page := SwitchSession(w.page, i))
    case NewSessionClicked(created) => w.(page := NewSession(w.page, true, created).state)
    case DeleteClicked(id, confirmed, deleted, created) =>
      w.(page := DeleteSession(w.page, id, confirmed, deleted, created))
    case RenameStarted(id) => w.(page := StartRename(w.page, id))
    case RenameCancelled => w.(page := CancelRename(w.page))
    case RenameCommitted(id, name, renamed) => w.(page := RenameSession(w.page, id, name, renamed))
  }

  function Run(w: World, events: seq<Event>): World
    decreases |events|
  {
    if events == [] then w else Run(Step(w, events[0]), events[1..])
  }

  /** The `isGenerating` flag is set exactly while a request awaits its answer. */
  predicate SingleFlight(w: World)
  {
    w.page.isGenerating <==> w.pending.Some?
  }

  lemma StepKeepsSingleFlight(w: World, e: Event)
    requires SingleFlight(w)
    ensures SingleFlight(Step(w, e))
  {
  }

  lemma {:induction false} RunKeepsSingleFlight(w: World, events: seq<Event>)
    requires SingleFlight(w)
    ensures SingleFlight(Run(w, events))
    decreases |events|
  {
    if events != [] {
      StepKeepsSingleFlight(w, events[0]);
      RunKeepsSingleFlight(Step(w, events[0]), events[1..]);
    }
  }

  /** While a request is pending, another prompt changes nothing and sends nothing. */
  lemma PromptWhilePendingDropped(w: World, prompt: string, newId: MessageId)
    requires SingleFlight(w) && w.pending.Some?
    ensures Step(w, SendPrompt(prompt, newId)) == w
  {
  }

  /** A sent request is scoped to an element exactly when one was selected at the time. */
  lemma PromptCarriesSelection(w: World, prompt: string, newId: MessageId)
    requires SingleFlight(w) && w.pending.None? && w.page.active.Some? && !IsBlank(prompt)
    ensures var r := Step(w, SendPrompt(prompt, newId));
      && r.pending.Some?
      && r.pending.value.payload.targetElement == w.page.selected
      && r.pending.value.sessionId == w.page.active.value.id
  {
  }

  /**
   * Rollback at page level: with a message identity not already in the
   * active chat, a prompt answered by a failure returns the page to its
   * state before the prompt, apart from the chat tab.
   */
  lemma PromptThenFailureRestores(w: World, prompt: string, newId: MessageId)
    requires SingleFlight(w) && w.pending.None? && w.page.active.Some? && !IsBlank(prompt)
    requires IdAbsent(w.page.active.value.chatHistory, newId)
    ensures Step(Step(w, SendPrompt(prompt, newId)), BackendAnswered(GenerationFailed))
            == World(w.page.(sideTab := ChatTab), None)
  {
    SubmitThenFailureRestores(w.page, prompt, w.page.selected, newId);
  }

  /** The active session, if any, has an entry (by `_id`) in the sidebar list. */
  predicate ActiveListed(p: Playground)
  {
    p.active.None? || Listed(p.sessions, p.active.value.id)
  }

  /** A successful answer for a session that is not listed. */
  predicate AnswersUnlistedSession(w: World, e: Event)
  {
    e.BackendAnswered? && e.response.Generated? && w.pending.Some?
    && !Listed(w.page.sessions, e.response.session.id)
  }

  /**
   * Every event keeps the active session listed, except a successful answer
   * for a session that is not listed.
   */
  lemma StepKeepsActiveListed(w: World, e: Event)
    requires ActiveListed(w.page)
    requires !AnswersUnlistedSession(w, e)
    ensures ActiveListed(Step(w, e).page)
  {
    var p := w.page;
    match e {
      case BackendAnswered(response) =>
        if w.pending.Some? && response.Generated? {
          var k :| 0 <= k < |p.sessions| && p.sessions[k].id == response.session.id;
          assert Step(w, e).page.sessions[k] == response.session;
        }
      case NewSessionClicked(created) =>
        if created.Some? {
          assert Step(w, e).page.sessions[0] == created.value;
        }
      case DeleteClicked(id, confirmed, deleted, created) =>
        var r := Step(w, e).page;
        if confirmed && deleted && p.active.Some? && !ActiveIs(p, id) {
          var k :| 0 <= k < |p.sessions| && p.sessions[k].id == p.active.value.id;
          assert p.sessions[k] in r.sessions;
          var j :| 0 <= j < |r.sessions| && r.sessions[j] == p.sessions[k];
        } else if confirmed && deleted && ActiveIs(p, id) && r.active.Some? {
          assert r.sessions[0] == r.active.value;
        }
      case RenameCommitted(id, name, renamed) =>
        var r := Step(w, e).page;
        if !IsBlank(name) && renamed.Some? && p.active.Some? {
          var k :| 0 <= k < |p.sessions| && p.sessions[k].id == p.active.value.id;
          assert r.sessions[k].id == r.active.value.id;
        }
      case _ =>
    }
  }

  /** The page before anything is loaded: no sessions, nothing active, nothing generating. */
  const InitialPage: Playground := Playground([], None, false, None, ChatTab, None)

  /**
   * The initial load starts the page in a state where both invariants hold,
   * whatever the fetch and the fallback creation return.
   */
  lemma InitialLoadEstablishes(fetched: Option<seq<Session>>, created: Option<Session>)
    ensures var w := World(InitialLoad(InitialPage, fetched, created), None);
      SingleFlight(w) && ActiveListed(w.page)
  {
    var p := InitialLoad(InitialPage, fetched, created);
    if p.active.Some? {
      assert p.sessions[0] == p.active.value;
    }
  }

  // The scenario below: one session "a", a prompt for it, its deletion, then the answer.
  const SessionA: Session := Session("a", "Untitled", "", "", [])
  const SessionB: Session := Session("b", "Untitled", "", "", [])
  const Regenerated: Session := SessionA.(jsxCode := "const GeneratedComponent = () => <button>Hi</button>;")
  const ScenarioStart: World := World(Playground([SessionA], Some(SessionA), false, None, ChatTab, None), None)

  lemma ScenarioPrompt()
    ensures var w := Step(ScenarioStart, SendPrompt("make a button", 0));
      w.pending.Some? && w.page.sessions == [SessionA] && ActiveIs(w.page, "a") && w.page.isGenerating
  {
    NotBlankWhenVisible("make a button", 0);
  }

  lemma ScenarioDelete(w: World)
    requires w.pending.Some? && w.page.sessions == [SessionA] && ActiveIs(w.page, "a") && w.page.isGenerating
    ensures var r := Step(w, DeleteClicked("a", true, true, Some(SessionB)));
      r.pending == w.pending && r.page.sessions == [SessionB] && r.page.isGenerating
  {
    assert RemoveById([SessionA], "a") == [];
  }

  lemma ScenarioAnswer(w: World)
    requires w.pending.Some? && w.page.sessions == [SessionB]
    ensures var r := Step(w, BackendAnswered(Generated(Regenerated)));
      r.page.sessions == [SessionB] && r.page.active == Some(Regenerated) && r.pending.None? && !r.page.isGenerating
  {
    assert ReplaceById([SessionB], "a", Regenerated) == [SessionB];
  }

  /**
   * The exception is real: deleting the session being generated for, then
   * receiving the answer, makes the deleted session active again while the
   * sidebar no longer lists it.
   */
  lemma DeleteDuringGenerationLeavesActiveUnlisted()
    ensures
      var w := Run(ScenarioStart, [SendPrompt("make a button", 0),
                                   DeleteClicked("a", true, true, Some(SessionB)),
                                   BackendAnswered(Generated(Regenerated))]);
      && ActiveListed(ScenarioStart.page)
      && SingleFlight(w)
      && w.page.active == Some(Regenerated)
      && w.page.sessions == [SessionB]
      && !ActiveListed(w.page)
  {
    assert ScenarioStart.page.sessions[0].id == "a";
    var evs := [SendPrompt("make a button", 0), DeleteClicked("a", true, true, Some(SessionB)),
                BackendAnswered(Generated(Regenerated))];
    ScenarioPrompt();
    var w1 := Step(ScenarioStart, evs[0]);
    ScenarioDelete(w1);
    var w2 := Step(w1, evs[1]);
    ScenarioAnswer(w2);
    var w3 := Step(w2, evs[2]);
    assert Run(ScenarioStart, evs) == Run(w1, evs[1..]);
    assert Run(w1, evs[1..]) == Run(w2, evs[2..]);
    assert Run(w2, evs[2..]) == Run(w3, []);
    assert !Listed(w3.page.sessions, "a");
  }
}
