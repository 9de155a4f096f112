/**
 * The evaluation half of the preview component: the generated source is
 * trimmed, transformed, wrapped in a factory that returns
 * `GeneratedComponent`, run, and the result's shape is checked. The
 * transformer and the factory run are foreign code; they enter as
 * functions, and only what the page does with their results is modelled.
 */
module Preview {

  import opened Wrappers
  import opened JsText

  /** The JavaScript values the factory can hand back. */
  datatype JsValue =
    | Undefined
    | Null
    | Boolean(b: bool)
    | Number(n: real)
    | NotANumber
    | BigInt(i: int)
    | Str(s: string)
    | Symbol
    | Function
    | Object

  /** The `typeof` operator. */
  function TypeOf(v: JsValue): string
  {
    match v
    case Undefined => "undefined"
    case Null => "object"
    case Boolean(_) => "boolean"
    case Number(_) => "number"
    case NotANumber => "number"
    case BigInt(_) => "bigint"
    case Str(_) => "string"
    case Symbol => "symbol"
    case Function => "function"
    case Object => "object"
  }

  /** JavaScript truthiness (`!v` is false). */
  predicate Truthy(v: JsValue)
  {
    match v
    case Undefined => false
    case Null => false
    case Boolean(b) => b
    case Number(n) => n != 0.0
    case NotANumber => false
    case BigInt(i) => i != 0
    case Str(s) => s != ""
    case Symbol => true
    case Function => true
    case Object => true
  }

  /** The page's acceptance test for the evaluated value: truthy, and a function or an object. */
  predicate IsValidComponent(v: JsValue)
  {
    Truthy(v) && (TypeOf(v) == "function" || TypeOf(v) == "object")
  }

  /** The test accepts exactly functions and non-null objects; `null` passes `typeof` but not truthiness. */
  lemma ValidComponentIff(v: JsValue)
    ensures IsValidComponent(v) <==> v.Function? || v.Object?
  {
  }

  /** What the transformer does with the trimmed source: throws, or yields (possibly no) code. */
  datatype TransformOutcome = TransformThrew(error: string) | Transformed(code: Option<string>)

  /** What running the factory does: throws, or returns a value. */
  datatype FactoryOutcome = FactoryThrew(error: string) | FactoryReturned(value: JsValue)

  /** The preview's two pieces of state: the component to render and the error text. */
  datatype PreviewState = PreviewState(component: Option<JsValue>, error: Option<string>)

  /** `String(new Error(m))` for the page's two own errors. */
  const EmptyCodeError: string := "Error: Babel transformation returned empty code."
  const InvalidComponentError: string := "Error: The evaluated code did not produce a valid React component."

  /** The factory body: the transformed code followed by a statement returning the entry point. */
  function FactoryBody(code: string): (body: string)
    ensures |code| < |body|
    ensures body[..|code|] == code
    ensures body[|code|..] == "\nreturn GeneratedComponent;"
  {
    code + "\nreturn GeneratedComponent;"
  }

  /** The transformed code the factory is built from, when there is any (`?.code` truthy). */
  function UsableCode(t: TransformOutcome): (code: Option<string>)
    ensures code.Some? <==> t.Transformed? && t.code.Some? && t.code.value != ""
    ensures code.Some? ==> t.code == code
  {
    if t.Transformed? && t.code.Some? && t.code.value != "" then t.code else None
  }

  /**
   * One run of the evaluation effect. Every failure, thrown or detected,
   * becomes error text and clears the component; success records the
   * factory's value and clears the error.
   */
  function Evaluate(jsx: string, transform: string -> TransformOutcome, run: string -> FactoryOutcome): (r: PreviewState)
    ensures r.component.Some? <==> r.error.None?
    ensures r.component.Some? ==>
      && IsValidComponent(r.component.value)
      && UsableCode(transform(Trim(jsx))).Some?
      && run(FactoryBody(UsableCode(transform(Trim(jsx))).value)) == FactoryReturned(r.component.value)
    ensures transform(Trim(jsx)).TransformThrew? ==> r.error == Some(transform(Trim(jsx)).error)
    ensures transform(Trim(jsx)).Transformed? && UsableCode(transform(Trim(jsx))).None? ==>
      r.error == Some(EmptyCodeError)
    ensures UsableCode(transform(Trim(jsx))).Some? ==>
      match run(FactoryBody(UsableCode(transform(Trim(jsx))).value))
      case FactoryThrew(e) => r.error == Some(e)
      case FactoryReturned(v) =>
        if IsValidComponent(v) then r == PreviewState(Some(v), None)
        else r == PreviewState(None, Some(InvalidComponentError))
  {
    var t := transform(Trim(jsx));
    if t.TransformThrew? then PreviewState(None, Some(t.error))
    else if UsableCode(t).None? then PreviewState(None, Some(EmptyCodeError))
    else
      match run(FactoryBody(UsableCode(t).value))
      case FactoryThrew(e) => PreviewState(None, Some(e))
      case FactoryReturned(v) =>
        if IsValidComponent(v) then PreviewState(Some(v), None)
        else PreviewState(None, Some(InvalidComponentError))
  }

  /** Whitespace around the generated source never changes the preview. */
  lemma EvaluateIgnoresSurroundingWhitespace(jsx: string, transform: string -> TransformOutcome, run: string -> FactoryOutcome)
    ensures Evaluate(Trim(jsx), transform, run) == Evaluate(jsx, transform, run)
  {
    TrimIdempotent(jsx);
  }

  /** What the preview shows: the error panel, or the stylesheet with the component (if any). */
  datatype View = ErrorPanel(message: string) | Frame(css: string, component: Option<JsValue>)

  /**
   * The render of the preview component. Error text takes precedence, but
   * only when it is truthy: an empty error string renders the frame.
   */
  function Render(state: PreviewState, css: string): (v: View)
    ensures v.ErrorPanel? <==> state.error.Some? && state.error.value != ""
    ensures v.ErrorPanel? ==> v.message == state.error.value
    ensures v.Frame? ==> v.css == css && v.component == state.component
  {
    if state.error.Some? && state.error.value != "" then ErrorPanel(state.error.value)
    else Frame(css, state.component)
  }

  /**
   * A component reaches the screen only after passing the shape check, and
   * never together with an error: a broken preview shows no component.
   */
  lemma RenderedComponentIsValid(jsx: string, css: string, transform: string -> TransformOutcome, run: string -> FactoryOutcome)
    ensures var v := Render(Evaluate(jsx, transform, run), css);
      v.Frame? && v.component.Some? ==> IsValidComponent(v.component.value)
    ensures var s := Evaluate(jsx, transform, run);
      s.error.Some? ==> !Render(s, css).Frame? || Render(s, css).component.None?
  {
  }
}
