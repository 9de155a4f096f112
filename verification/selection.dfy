/**
 * The host side of the selection channel: the page's `message` listener
 * and the deselect button, plus the round trip from a click in the preview
 * to the selected element on the host.
 */
module Selection {

  import opened Wrappers
  import opened JsText
  import opened PlaygroundTypes
  import opened Instrument
  import Preview

  /** The selection the host stores for a message: the message's own fields. */
  function AsSelected(m: FrameMessage): SelectedElement
  {
    SelectedElement(m.elementId, m.tagName, m.styles)
  }

  /**
   * The `message` listener: a message whose `type` is `element-click`
   * becomes the selection and switches to the properties tab; any other
   * message is ignored.
   */
  function ReceiveFrameMessage(p: Playground, m: FrameMessage): (r: Playground)
    ensures m.kind == ElementClick ==>
      && r.selected == Some(AsSelected(m))
      && r.sideTab == PropertiesTab
      && r == p.(selected := r.selected, sideTab := r.sideTab)
    ensures m.kind != ElementClick ==> r == p
  {
    if m.kind == ElementClick then p.(selected := Some(AsSelected(m)), sideTab := PropertiesTab)
    else p
  }

  /** The deselect button of the properties panel. */
  function Deselect(p: Playground): (r: Playground)
    ensures r.selected.None?
    ensures r == p.(selected := None)
  {
    p.(selected := None)
  }

  /**
   * Clicking the `i`-th element of a render pass selects, on the host, a
   * handle that names position `i`, with that element's tag and text.
   */
  lemma ClickSelectsThatElement(p: Playground, dom: seq<Node>, i: nat, computed: ComputedStyle)
    requires i < |Elements(dom)|
    ensures var b := AssignHandles(dom)[i];
      var r := ReceiveFrameMessage(p, Click(b, computed));
      && r.selected.Some?
      && ParseHandle(r.selected.value.elementId) == Some(i)
      && r.selected.value.tagName == Elements(dom)[i].tagName
      && r.selected.value.styles.textContent == Some(TextContent([Elements(dom)[i]]))
      && r.sideTab == PropertiesTab
  {
  }

  /**
   * Evaluation, click and host selection joined: when the preview of
   * `jsx` shows a component, clicking the `i`-th rendered element selects a
   * handle naming position `i`, with that element's tag.
   */
  lemma EvaluatedClickSelects(p: Playground, jsx: string, css: string, dom: seq<Node>,
                              transform: string -> Preview.TransformOutcome,
                              run: string -> Preview.FactoryOutcome,
                              i: nat, computed: ComputedStyle)
    requires Preview.Evaluate(jsx, transform, run).component.Some?
    requires i < |Elements(dom)|
    ensures var bindings := Instrument.Instrument(Preview.Render(Preview.Evaluate(jsx, transform, run), css), dom);
      && i < |bindings|
      && var r := ReceiveFrameMessage(p, Click(bindings[i], computed));
      && r.selected.Some?
      && r.selected.value.elementId == HandleOf(i)
      && r.selected.value.tagName == Elements(dom)[i].tagName
      && r.sideTab == PropertiesTab
  {
    BindingsOnlyForValidComponents(jsx, css, dom, transform, run);
  }

  /**
   * The button scenario: a single `<button>Hi</button>` gets handle
   * `element-0`, and clicking it posts an `element-click` for a BUTTON with
   * text "Hi".
   */
  lemma ButtonScenario(computed: ComputedStyle)
    ensures var dom := [Element("BUTTON", [Text("Hi")])];
      var bindings := AssignHandles(dom);
      && |bindings| == 1
      && bindings[0].handle == "element-0"
      && Click(bindings[0], computed)
         == FrameMessage(ElementClick, "element-0", "BUTTON",
                         Styles(computed.backgroundColor, computed.color, computed.fontSize, computed.padding,
                                Some("Hi")))
  {
    var dom := [Element("BUTTON", [Text("Hi")])];
    assert Elements([Text("Hi")]) == [];
    assert dom[1..] == [];
    assert Elements(dom) == [dom[0]];
    assert Decimal(0) == "0";
    assert TextContent([Text("Hi")]) == "Hi";
  }
}
