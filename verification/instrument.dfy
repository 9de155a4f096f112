/**
 * The instrumentation effect of the preview. It runs when the evaluated
 * component changes, not on every render. Each time, every element then
 * under the preview's wrapper, in document order, gets the handle
 * `element-<index>` and a click listener that posts a selection message to
 * the host window. The model is one such pass over the DOM present then.
 */
module Instrument {

  import opened Wrappers
  import opened JsText
  import opened PlaygroundTypes
  import Preview

  /** The rendered DOM below the wrapper: elements with children, and text. */
  datatype Node = Element(tagName: string, children: seq<Node>) | Text(text: string)

  /** `querySelectorAll('*')`: every element of the forest, in document (pre-)order. */
  function Elements(forest: seq<Node>): (r: seq<Node>)
    ensures forall i :: 0 <= i < |r| ==> r[i].Element?
    ensures forall i :: 0 <= i < |forest| && forest[i].Element? ==> forest[i] in r
    decreases forest
  {
    if forest == [] then []
    else
      match forest[0]
      case Text(_) => Elements(forest[1..])
      case Element(_, children) => [forest[0]] + Elements(children) + Elements(forest[1..])
  }

  /** Document order is compositional: the elements of adjacent forests follow each other. */
  lemma {:induction false} ElementsConcat(a: seq<Node>, b: seq<Node>)
    ensures Elements(a + b) == Elements(a) + Elements(b)
    decreases a
  {
    if a == [] {
      assert a + b == b;
    } else {
      assert (a + b)[0] == a[0];
      assert (a + b)[1..] == a[1..] + b;
      ElementsConcat(a[1..], b);
    }
  }

  /** An element is listed first, followed by the elements below it: document pre-order. */
  lemma ElementsOfElement(tag: string, children: seq<Node>)
    ensures Elements([Element(tag, children)]) == [Element(tag, children)] + Elements(children)
  {
    var f := [Element(tag, children)];
    assert f[1..] == [];
  }

  /** Text nodes are not elements and contribute nothing to the list. */
  lemma ElementsOfText(t: string)
    ensures Elements([Text(t)]) == []
  {
    var f := [Text(t)];
    assert f[1..] == [];
  }

  /** `el.textContent` of a node, and of a forest: all descendant text, in order. */
  function TextContent(forest: seq<Node>): (r: string)
    ensures forest == [] ==> r == ""
    ensures |forest| == 1 && forest[0].Text? ==> r == forest[0].text
    ensures |forest| == 1 && forest[0].Element? ==> r == TextContent(forest[0].children)
    decreases forest
  {
    if forest == [] then ""
    else
      match forest[0]
      case Text(t) => t + TextContent(forest[1..])
      case Element(_, children) => TextContent(children) + TextContent(forest[1..])
  }

  /** The text of adjacent forests is their texts, one after the other. */
  lemma {:induction false} TextContentConcat(a: seq<Node>, b: seq<Node>)
    ensures TextContent(a + b) == TextContent(a) + TextContent(b)
    decreases a
  {
    if a == [] {
      assert a + b == b;
    } else {
      assert (a + b)[0] == a[0];
      assert (a + b)[1..] == a[1..] + b;
      TextContentConcat(a[1..], b);
    }
  }

  const HandlePrefix: string := "element-"

  /** The handle of the element at position `index` in document order. */
  function HandleOf(index: nat): (h: string)
    ensures |h| > |HandlePrefix| && h[..|HandlePrefix|] == HandlePrefix
    ensures AllDigits(h[|HandlePrefix|..])
    ensures |h| > |HandlePrefix| + 1 ==> h[|HandlePrefix|] != '0'
  {
    HandlePrefix + Decimal(index)
  }

  /** Recovers the position from a handle; anything not of the form `element-<digits>` is rejected. */
  function ParseHandle(h: string): (r: Option<nat>)
    ensures r.Some? ==> |h| > |HandlePrefix| && h[..|HandlePrefix|] == HandlePrefix
  {
    if |h| > |HandlePrefix| && h[..|HandlePrefix|] == HandlePrefix then ParseDecimal(h[|HandlePrefix|..])
    else None
  }

  lemma HandleRoundTrip(index: nat)
    ensures ParseHandle(HandleOf(index)) == Some(index)
  {
    var h := HandleOf(index);
    assert h[|HandlePrefix|..] == Decimal(index);
    DecimalRoundTrip(index);
  }

  /** Handles of different positions differ, so handles are unique within one render pass. */
  lemma HandlesDistinct(i: nat, j: nat)
    requires i != j
    ensures HandleOf(i) != HandleOf(j)
  {
    HandleRoundTrip(i);
    HandleRoundTrip(j);
  }

  datatype Binding = Binding(handle: string, element: Node)

  /** One render pass: pair every element, in document order, with its handle. */
  function AssignHandles(forest: seq<Node>): (r: seq<Binding>)
    ensures |r| == |Elements(forest)|
    ensures forall i :: 0 <= i < |r| ==> r[i].element == Elements(forest)[i] && r[i].element.Element?
    ensures forall i :: 0 <= i < |r| ==> r[i].handle == HandleOf(i)
    ensures forall i :: 0 <= i < |r| ==> ParseHandle(r[i].handle) == Some(i)
    ensures forall i, j :: 0 <= i < |r| && 0 <= j < |r| && i != j ==> r[i].handle != r[j].handle
  {
    var els := Elements(forest);
    var r := seq(|els|, i requires 0 <= i < |els| => Binding(HandleOf(i), els[i]));
    assert forall i :: 0 <= i < |r| ==> ParseHandle(r[i].handle) == Some(i) by {
      forall i | 0 <= i < |r| {
        HandleRoundTrip(i);
      }
    }
    r
  }

  /**
   * The listeners exist only when the preview rendered its wrapper, i.e. it
   * shows a component rather than the error panel or nothing.
   */
  function Instrument(view: Preview.View, dom: seq<Node>): (r: seq<Binding>)
    ensures view.ErrorPanel? || view.component.None? ==> r == []
    ensures view.Frame? && view.component.Some? ==> r == AssignHandles(dom)
  {
    if view.Frame? && view.component.Some? then AssignHandles(dom) else []
  }

  /** The opaque strings `getComputedStyle` reports for the clicked element. */
  datatype ComputedStyle = ComputedStyle(backgroundColor: string, color: string, fontSize: string, padding: string)

  /** The message a bound element's click listener posts to the host window. */
  function Click(b: Binding, computed: ComputedStyle): (m: FrameMessage)
    requires b.element.Element?
    ensures m.kind == ElementClick && m.elementId == b.handle && m.tagName == b.element.tagName
    ensures m.styles.textContent == Some(TextContent([b.element]))
    ensures m.styles.backgroundColor == computed.backgroundColor && m.styles.color == computed.color
    ensures m.styles.fontSize == computed.fontSize && m.styles.padding == computed.padding
  {
    FrameMessage(
      ElementClick, b.handle, b.element.tagName,
      Styles(computed.backgroundColor, computed.color, computed.fontSize, computed.padding,
             Some(TextContent([b.element]))))
  }

  /**
   * Broken output yields no selection targets: elements are bound only
   * after an evaluation whose value passed the shape check, and then every
   * element of the rendered DOM is bound.
   */
  lemma BindingsOnlyForValidComponents(jsx: string, css: string, dom: seq<Node>,
                                       transform: string -> Preview.TransformOutcome,
                                       run: string -> Preview.FactoryOutcome)
    ensures var s := Preview.Evaluate(jsx, transform, run);
      Instrument(Preview.Render(s, css), dom) != [] ==>
        s.error.None? && s.component.Some? && Preview.IsValidComponent(s.component.value)
    ensures var s := Preview.Evaluate(jsx, transform, run);
      s.component.Some? ==> Instrument(Preview.Render(s, css), dom) == AssignHandles(dom)
    ensures var s := Preview.Evaluate(jsx, transform, run);
      s.error.Some? ==> Instrument(Preview.Render(s, css), dom) == []
  {
  }
}
