# Playground page of the component generator, in Dafny

The component generator lets a user describe a UI component in words, shows
the generated component live in a preview frame, and lets the user click any
rendered element to ask for an edit scoped to that element. All of its logic
lives in the playground page. This project models that page's behaviour:

- **The generation loop** (`EditLoop`). `handleAPIMessage` is split at its
  `await` into `Submit` and `Resolve`. `Submit` is guarded, appends an
  optimistic user message to the active session and sets `isGenerating`.
  `Resolve` applies the backend's answer to the state as it is when the
  answer arrives. Message identity (JavaScript's `!==` on objects) is the
  `id` field of `ChatMessage`. The identity of the new message object is a
  parameter of `Submit`.
- **The session list** (`SessionList`): new session, the session-choosing
  branch of the initial load, switching, delete and rename, and starting or
  cancelling a rename.
- **The preview** (`Preview`): trimming, the empty-code check, the factory
  body, the component-shape check over an abstract JavaScript value, and the
  rule that error text takes precedence over rendering.
- **Instrumentation** (`Instrument`): elements in document order, the
  `element-<index>` handles, and the message a click posts.
- **The selection channel** (`Selection`): the host's `message` filter and
  deselection.
- **The page as one state machine** (`PageEvents`): every user action,
  backend answer and frame message is an `Event`. The pending request is part
  of the state. Two invariants are proved over it:
  - `isGenerating` holds exactly while a request is pending (single flight).
  - The active session is listed in the sidebar. This holds after every event
    but one: a successful answer whose `_id` is not in the list. When the
    backend answers with the requested session, that happens only if the
    session was deleted while it was generating.
    `DeleteDuringGenerationLeavesActiveUnlisted` shows that exception on a
    concrete run.

The transformer and the factory run are foreign code. They enter `Evaluate`
as function parameters. Backend answers enter as `Option`/`Response` values.
Computed styles are opaque strings.

A generation answer could be expected to apply to the session it was issued
for, whatever is active when it arrives. The code does otherwise, and the
model follows the code:

- On success, the answering session unconditionally becomes active.
- On failure, the optimistic message is filtered out of whichever session is
  active at that moment.
- The optimistic message is only ever added to the active session, never to
  the sidebar list.

## Model

| member | source | states |
|---|---|---|
| JsText.Trim | src/app/playground/page.tsx:247 | `trim` removes exactly the leading and trailing JavaScript whitespace. The result is empty iff the input is all whitespace, and otherwise starts and ends with a non-whitespace character. |
| JsText.BlankIffAllWhitespace | src/app/playground/page.tsx:247 | The `!prompt.trim()` guard fires iff every character is whitespace (both directions). |
| JsText.TrimIdempotent | src/app/playground/page.tsx:51 | Trimming an already trimmed source changes nothing. |
| JsText.DecimalRoundTrip | src/app/playground/page.tsx:76 | The decimal text of an index reads back as that index. |
| JsText.DecimalInjective | src/app/playground/page.tsx:76 | Different indices render to different decimal texts. |
| PlaygroundTypes.ReplaceById | src/app/playground/page.tsx:268 | The `map` keeps every entry whose `_id` differs and replaces every entry whose `_id` matches. Length is unchanged. |
| PlaygroundTypes.RemoveById | src/app/playground/page.tsx:343 | The delete filter keeps exactly the sessions with a different `_id`. |
| PlaygroundTypes.RemoveByIdConcat | src/app/playground/page.tsx:343 | The delete filter distributes over concatenation, so the survivors keep their relative order. |
| PlaygroundTypes.RemoveMessage | src/app/playground/page.tsx:274 | The rollback filter keeps exactly the messages that are not the optimistic object (compared by identity). |
| PlaygroundTypes.RemoveMessageConcat | src/app/playground/page.tsx:274 | The rollback filter distributes over concatenation, so surviving messages keep their display order and multiplicity. |
| PlaygroundTypes.RemoveMessageSingle | src/app/playground/page.tsx:274 | A single message survives the filter exactly when it is not the optimistic object. |
| PlaygroundTypes.RemoveAppendedMessage | src/app/playground/page.tsx:272-275 | Filtering out a freshly appended message gives back the history from before the append. |
| EditLoop.TextEditPrompt | src/app/playground/page.tsx:138 | The text-change prompt contains the typed text and is never blank. |
| EditLoop.BackgroundEditPrompt | src/app/playground/page.tsx:148 | The colour-change prompt ends with the picked colour and is never blank. |
| EditLoop.Submit | src/app/playground/page.tsx:246-258 | With a blank prompt, no active session, or a generation running, nothing changes and nothing is sent. Otherwise exactly one user message with the prompt is appended to the active session and nothing else in it changes. `isGenerating` is set, the chat tab is shown, and the request names the active session and carries the target element iff one was given. |
| EditLoop.Resolve | src/app/playground/page.tsx:260-279 | Either answer clears `isGenerating`. Success makes the response the active session, replaces list entries with its `_id`, leaves the other entries alone and clears the selection. Failure keeps the list, selection and session fields, and removes only the optimistic message object from the active chat. The survivors keep their order. |
| EditLoop.SubmitThenFailureRestores | src/app/playground/page.tsx:250-278 | If nothing interleaves, a failed generation returns the page to exactly its state before the submit, except for the chat tab. |
| EditLoop.SubmitThenSuccess | src/app/playground/page.tsx:250-269 | If nothing interleaves, a successful generation leaves the backend's session active, with the selection cleared. The optimistic message is superseded, not merged. The list entries with the response's `_id` are replaced. So the response is listed afterwards iff its `_id` was listed before. |
| EditLoop.FailureKeepsLookalikeMessages | src/app/playground/page.tsx:274 | An earlier message with the same role and text as the prompt survives a failed generation. |
| EditLoop.FailureOnOtherSessionIsHarmless | src/app/playground/page.tsx:272-275 | A failure that arrives after switching to a session without the optimistic message changes only `isGenerating`. |
| EditLoop.SecondSubmitDropped | src/app/playground/page.tsx:247-252 | A second submit before the first is answered is dropped: the state is unchanged and no request is sent. |
| EditLoop.PanelEditsAreSent | src/app/playground/page.tsx:505-509 | A properties-panel edit (text or background colour) with a session active and nothing generating is always sent, scoped to the current selection. |
| SessionList.NewSession | src/app/playground/page.tsx:182-195 | A created session is prepended and becomes active iff asked. A failed creation changes nothing and yields no session. |
| SessionList.InitialLoad | src/app/playground/page.tsx:227-232 | A non-empty fetched list becomes the sessions and its first entry becomes active. An empty list creates and activates a session. A failed fetch changes nothing. |
| SessionList.SwitchSession | src/app/playground/page.tsx:528 | Clicking a listed session makes it active and changes nothing else. |
| SessionList.DeleteSession | src/app/playground/page.tsx:334-360 | Unconfirmed or failed deletes change nothing. Otherwise the sessions with that `_id` are removed. If the active session was deleted, the first remaining session becomes active. If none remain, a newly created session becomes active, or nothing when creation fails. Otherwise the active session is untouched. No other field changes. |
| SessionList.DeleteUnknownIdKeepsSessions | src/app/playground/page.tsx:343 | Deleting an `_id` that neither the list nor the active session has changes nothing. |
| SessionList.DeletePreservesOrder | src/app/playground/page.tsx:343 | Removing one uniquely identified session leaves the sessions before and after it, in order. |
| SessionList.StartRename | src/app/playground/page.tsx:546 | The pencil button marks that session as being renamed and changes nothing else. |
| SessionList.CancelRename | src/app/playground/page.tsx:538 | Escape ends renaming and changes nothing else. |
| SessionList.RenameSession | src/app/playground/page.tsx:362-380 | A blank name changes nothing, and renaming does not even end. Otherwise renaming ends. On success only the entries with that `_id` are replaced, and the active session is replaced iff its `_id` matches. |
| Selection.ReceiveFrameMessage | src/app/playground/page.tsx:283-288 | An `element-click` message becomes the selection and shows the properties tab, with nothing else changed. Any other message changes nothing. |
| Selection.Deselect | src/app/playground/page.tsx:507 | Deselecting clears the selection only. |
| Selection.ClickSelectsThatElement | src/app/playground/page.tsx:75-95 | Clicking the i-th element selects, on the host, a handle that reads back as i, with that element's tag and text content. |
| Selection.EvaluatedClickSelects | src/app/playground/page.tsx:49-108 | When the preview shows an evaluated component, clicking the i-th rendered element selects handle `element-i` with that element's tag and shows the properties tab. |
| Selection.ButtonScenario | src/app/playground/page.tsx:75-94 | A lone `<button>Hi</button>` gets `element-0`. Its click posts an `element-click` for tag `BUTTON` with text `Hi`. |
| Preview.ValidComponentIff | src/app/playground/page.tsx:61-63 | The shape check accepts exactly functions and non-null objects. |
| Preview.FactoryBody | src/app/playground/page.tsx:58 | The factory body is the transformed code followed by the statement returning `GeneratedComponent`. |
| Preview.UsableCode | src/app/playground/page.tsx:56 | Transformed code is used only if it is present and non-empty. |
| Preview.Evaluate | src/app/playground/page.tsx:49-71 | Exactly one of component and error is set. The transformer is given the trimmed source. Its error, the empty-code error, the factory's error, or the invalid-shape error is recorded as appropriate. A factory value that passes the shape check becomes the component and clears the error. A recorded component is always the factory's own return value. |
| Preview.EvaluateIgnoresSurroundingWhitespace | src/app/playground/page.tsx:51 | Whitespace around the generated source never changes the preview. |
| Preview.Render | src/app/playground/page.tsx:101-110 | The error panel is shown iff the error text is non-empty, and it shows that text. Otherwise the stylesheet and the current component are rendered. |
| Preview.RenderedComponentIsValid | src/app/playground/page.tsx:61-108 | A rendered component has passed the shape check. A preview with an error never renders a component. |
| Instrument.Elements | src/app/playground/page.tsx:75 | Every node listed is an element, and every top-level element of the rendered forest is listed. |
| Instrument.ElementsConcat | src/app/playground/page.tsx:75 | Document order is compositional across adjacent subtrees. |
| Instrument.ElementsOfElement | src/app/playground/page.tsx:75 | An element is listed first, followed by every element below it, at any depth. Together with `ElementsConcat` this fixes document pre-order. |
| Instrument.ElementsOfText | src/app/playground/page.tsx:75 | Text nodes are never listed. |
| Instrument.TextContent | src/app/playground/page.tsx:87 | A text node's text is its own text. An element's text is the text of its children. An empty forest has no text. |
| Instrument.TextContentConcat | src/app/playground/page.tsx:87 | Text content is the concatenation of the text of adjacent subtrees, in document order. |
| Instrument.HandleOf | src/app/playground/page.tsx:76 | A handle is `element-` followed by decimal digits without a leading zero, the canonical `${index}` rendering. |
| Instrument.HandleRoundTrip | src/app/playground/page.tsx:76 | The handle of position i reads back as i. |
| Instrument.HandlesDistinct | src/app/playground/page.tsx:75-77 | Different positions get different handles. |
| Instrument.AssignHandles | src/app/playground/page.tsx:75-77 | The i-th element in document order gets exactly the handle `element-i`, which reads back as i. Handles within one render pass are pairwise distinct. |
| Instrument.Instrument | src/app/playground/page.tsx:73-108 | Elements are bound only when the preview shows a component. The error panel or an empty preview gets no bindings. |
| Instrument.BindingsOnlyForValidComponents | src/app/playground/page.tsx:61-108 | Broken output yields no selection targets. Bindings exist only after an evaluation without error whose value passed the shape check. When evaluation yields a component, every rendered element is bound. |
| Instrument.Click | src/app/playground/page.tsx:78-94 | A click posts an `element-click` with the element's handle, tag, computed style values and text content. |
| PageEvents.Step | src/app/playground/page.tsx:488-549 | A prompt with nothing pending is exactly a `Submit` with the current selection as target. An answer resolves the pending request, or is ignored when none is pending. No other event touches the pending request. |
| PageEvents.StepKeepsSingleFlight | src/app/playground/page.tsx:247-278 | Every event keeps `isGenerating` true exactly while a request is pending. |
| PageEvents.RunKeepsSingleFlight | src/app/playground/page.tsx:247-278 | Single flight holds after any sequence of events. |
| PageEvents.PromptWhilePendingDropped | src/app/playground/page.tsx:247 | A prompt while a request is pending changes nothing. |
| PageEvents.PromptThenFailureRestores | src/app/playground/page.tsx:250-278 | At page level, a prompt with a message identity new to the active chat, followed by a failure, returns the page to its earlier state with nothing pending, apart from the chat tab. |
| PageEvents.InitialLoadEstablishes | src/app/playground/page.tsx:227-232 | Whatever the fetch and the fallback creation return, the initial load leaves a page where single flight holds and the active session is listed. |
| PageEvents.PromptCarriesSelection | src/app/playground/page.tsx:306-310 | A sent request targets the current selection and names the active session. |
| PageEvents.StepKeepsActiveListed | src/app/playground/page.tsx:343-355 | Every event except a successful answer for an unlisted session keeps the active session in the sidebar list. |
| PageEvents.DeleteDuringGenerationLeavesActiveUnlisted | src/app/playground/page.tsx:266-268 | Deleting the session being generated for and then receiving the answer leaves an active session that the list no longer has. |

## Left out

- Babel's `transform` and the `new Function` factory are foreign code and dynamic execution. They are function parameters of `Preview.Evaluate`. Any text a thrown value stringifies to is taken as given.
- The preview frame, React rendering and effect scheduling, `getComputedStyle`, `postMessage` delivery and DOM event wiring are runtime behaviour. The rendered DOM is an input forest, computed styles are opaque strings, and the clicked element is the one the listener is bound to (`stopPropagation` is not modelled).
- Instrument.AssignHandles: models one instrumentation pass over the DOM present when the evaluated component changes. The source's effect depends only on the component, so it does not re-run on the component's own later re-renders. Elements added by such re-renders get no handle or listener, and nodes kept across them keep their first-pass handle. The model does not represent later re-renders.
- All HTTP calls and `localStorage` are I/O. Their results are `Option`/`Response` inputs. The request URL, headers, access token and the rename request body are not modelled.
- The authentication status, the 401 redirect and the loading flag of the initial fetch are auth and routing glue. `SessionList.InitialLoad` models only the session-choosing branch. A failed fetch is `None`, and a missing list counts as empty.
- SessionList.DeleteSession: modelled as one atomic step. The source reads a possibly stale `sessions` closure across its `await`, and interleavings between the delete call and its answer are not modelled.
- SessionList.RenameSession: modelled as one atomic step. The source reads a possibly stale `activeSession` closure across its `await`, and interleavings between the rename call and its answer are not modelled.
- EditLoop.Submit: `newId` is assumed to be the identity of a new object, unlike any message already in a chat. The source gets this from allocation. The model does not enforce it, and the rollback lemmas require it (`IdAbsent`).
- EditLoop.Submit: the guard reads the current state. The source's callback reads the `activeSession` and `isGenerating` of the render that created it.
- Frame messages are records with a `kind`. A payload without a `type`, or a non-object payload, behaves like any other non-`element-click` kind. A `null` payload makes the source's listener throw, which also leaves the state unchanged. The model's selection keeps only `elementId`, `tagName` and `styles` of an `element-click` message. It drops the rest:
  - The source stores the whole message object, including `type` and any extra fields, and later sends that object as `targetElement` to the backend. `Payload` therefore lacks those extra fields.
  - A typed `FrameMessage` cannot express an `element-click` payload with missing fields. The source stores such a payload unchecked, and its later render of `tagName.toLowerCase()` would throw.
- JavaScript numbers are `real` in the shape check. Floating point does not matter there: only truthiness and `typeof` are used.
- The prompt text box, fullscreen toggle, copy status, zip download, syntax highlighting, JSX/CSS code tabs, sidebar collapse, scrolling and logout are UI chrome with no bearing on the state machine.
- The login, signup, profile and callback pages, the axios interceptor, the landing page and the user schema are form, redirect and storage glue with no model-relevant logic. They are not part of this model.
