/**
 * The page as the page agent sees it: a table of element records in document
 * order, in place of the DOM, and the events the agent dispatches on them.
 *
 * Every property the agent reads or writes is a field of the record.  The
 * properties that JavaScript may report as `undefined` (an element without a
 * `type`, `placeholder` or `required` property, a missing attribute) are
 * options.  The three document relations label inference consults are given
 * as abstract inputs: the text of the first `label[for=id]` of the document,
 * the text of the enclosing `<label>` and the previous element sibling.
 */
module Dom {
  import opened Wrappers
  import opened Text

  /** One `<option>` of a select: its `value` and its display `text`. */
  datatype SelectOption = SelectOption(value: string, text: string)

  /** The previous element sibling: its tag name and its text content. */
  datatype Sibling = Sibling(tag: string, text: string)

  datatype Element = Element(
    tag: string,                          // tagName, as the DOM reports it ("INPUT")
    kind: Option<string>,                 // the `type` property ("text", "checkbox", "select-one", ...)
    id: Option<string>,
    name: Option<string>,
    value: Option<string>,
    checked: bool,
    placeholder: Option<string>,
    required: Option<bool>,
    options: seq<SelectOption>,           // a select's options, in order; empty otherwise
    selectedIndex: int,
    forLabelText: Option<string>,         // textContent of the document's first label[for=id]
    enclosingLabelText: Option<string>,   // textContent of element.closest('label')
    previousSibling: Option<Sibling>      // element.previousElementSibling
  )

  /** A value of the server's fill response: JSON strings and booleans. */
  datatype FillValue = Str(s: string) | Bool(b: bool)

  datatype EventKind = Input | Change | Blur

  /** A dispatched `Event`: its type, the index of its target in the table, and its `bubbles` flag. */
  datatype Event = Event(kind: EventKind, target: nat, bubbles: bool)

  /** `element.tagName.toLowerCase()` */
  function TagName(e: Element): string
  {
    ToLower(e.tag)
  }

  predicate IsSelect(e: Element)
  {
    TagName(e) == "select"
  }

  /** The elements `querySelectorAll('input, textarea, select')` returns. */
  predicate IsFormControl(e: Element)
  {
    TagName(e) in {"input", "textarea", "select"}
  }

  /** `element.type === 'checkbox' || element.type === 'radio'` */
  predicate IsCheckable(e: Element)
  {
    e.kind == Some("checkbox") || e.kind == Some("radio")
  }

  /** The three notifications `triggerEvents` dispatches on the element at `i`, in order. */
  function EventsFor(i: nat): (evs: seq<Event>)
  {
    [Event(Input, i, true), Event(Change, i, true), Event(Blur, i, true)]
  }
}
