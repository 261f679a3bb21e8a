/**
 * Field extraction: `createFormFieldData` turns one element into a field
 * descriptor, or into nothing for an element the agent skips, and
 * `gatherFormFieldsData` does so for all the controls of a form.
 */
module FieldExtraction {
  import opened Wrappers
  import opened Text
  import opened Dom

  /** The descriptor sent to the server for one detected control. */
  datatype FieldDescriptor = FieldDescriptor(
    id: string,
    name: string,
    kind: string,
    labelText: string,
    placeholder: string,
    required: bool,
    value: string,
    options: seq<SelectOption>
  )

  /** `x || ''` for a string property that may be undefined. */
  function OrEmpty(o: Option<string>): string
  {
    if o.Some? then o.value else ""
  }

  /** `''` and `undefined` are the falsy strings. */
  predicate Truthy(o: Option<string>)
  {
    o.Some? && o.value != ""
  }

  /** The types the agent never describes. */
  predicate SkippedType(e: Element)
  {
    e.kind == Some("hidden") || e.kind == Some("submit") || e.kind == Some("button") || e.kind == Some("file")
  }

  /** `element.value && element.value.trim() !== ''`: the element already holds a value. */
  predicate HoldsValue(e: Element)
  {
    Truthy(e.value) && Trim(e.value.value) != ""
  }

  predicate Skipped(e: Element)
  {
    SkippedType(e) || HoldsValue(e)
  }

  /** Tags an element sibling must not have to serve as a label. */
  predicate IsFieldTag(tag: string)
  {
    ToLower(tag) in {"input", "textarea", "select", "button"}
  }

  /** Label inference, step by step: each step runs only while the label is still empty. */
  function InferLabel(e: Element): string
  {
    var fromFor :=
      if Truthy(e.id) && e.forLabelText.Some? then Trim(e.forLabelText.value) else "";
    var fromEnclosing :=
      if fromFor == "" && e.enclosingLabelText.Some? then
        var text := Trim(e.enclosingLabelText.value);
        if Truthy(e.value) then Trim(ReplaceFirst(text, e.value.value, "")) else text
      else fromFor;
    if fromEnclosing == "" && e.previousSibling.Some? && !IsFieldTag(e.previousSibling.value.tag) then
      Trim(e.previousSibling.value.text)
    else fromEnclosing
  }

  /** The three label sources, each on its own. */

  /** (1) A `label[for=id]`, consulted only when the element has a non-empty id. */
  function ForLabelCandidate(e: Element): string
  {
    match (e.id, e.forLabelText)
    case (Some(id), Some(text)) => if id == "" then "" else Trim(text)
    case _ => ""
  }

  /** (2) The enclosing label, its first occurrence of the element's value cut out. */
  function EnclosingLabelCandidate(e: Element): string
  {
    match e.enclosingLabelText
    case None => ""
    case Some(text) =>
      match e.value
      case Some(v) => if v == "" then Trim(text) else Trim(ReplaceFirst(Trim(text), v, ""))
      case None => Trim(text)
  }

  /** (3) The previous element sibling, unless it is itself a control or a button. */
  function SiblingLabelCandidate(e: Element): string
  {
    match e.previousSibling
    case None => ""
    case Some(sib) => if IsFieldTag(sib.tag) then "" else Trim(sib.text)
  }

  function FirstNonEmpty(candidates: seq<string>): string
  {
    if candidates == [] then ""
    else if candidates[0] != "" then candidates[0]
    else FirstNonEmpty(candidates[1..])
  }

  /** The label is the first non-empty of the three sources, in their order, and `''` when all are empty. */
  lemma InferLabelIsFirstSource(e: Element)
    ensures InferLabel(e) == FirstNonEmpty([ForLabelCandidate(e), EnclosingLabelCandidate(e), SiblingLabelCandidate(e)])
    ensures ForLabelCandidate(e) != "" ==> InferLabel(e) == ForLabelCandidate(e)
    ensures ForLabelCandidate(e) == "" && EnclosingLabelCandidate(e) != "" ==> InferLabel(e) == EnclosingLabelCandidate(e)
    ensures ForLabelCandidate(e) == "" && EnclosingLabelCandidate(e) == "" ==> InferLabel(e) == SiblingLabelCandidate(e)
  {
    var c := [ForLabelCandidate(e), EnclosingLabelCandidate(e), SiblingLabelCandidate(e)];
    assert c[1..][1..][1..] == [];
    assert FirstNonEmpty(c[1..][1..]) == c[2] by {
      assert FirstNonEmpty(c[1..][1..][1..]) == "";
    }
  }

  /** An inferred label never starts or ends with whitespace. */
  lemma InferLabelIsTrimmed(e: Element)
    ensures Trim(InferLabel(e)) == InferLabel(e)
  {
    InferLabelIsFirstSource(e);
    assert Trim("") == "";
    if ForLabelCandidate(e) != "" {
      TrimIdempotent(e.forLabelText.value);
    } else if EnclosingLabelCandidate(e) != "" {
      var text := e.enclosingLabelText.value;
      if e.value.Some? && e.value.value != "" {
        TrimIdempotent(ReplaceFirst(Trim(text), e.value.value, ""));
      } else {
        TrimIdempotent(text);
      }
    } else if SiblingLabelCandidate(e) != "" {
      TrimIdempotent(e.previousSibling.value.text);
    }
  }

  /** An element with id "x" and a `label for="x"` reading "Name" is labelled "Name". */
  lemma LabelFromForAttribute(e: Element)
    requires e.id == Some("x") && e.forLabelText == Some("Name")
    ensures InferLabel(e) == "Name"
  {
    assert TrimStart("Name") == "Name";
    assert TrimEnd("Name") == "Name";
  }

  /** `createFormFieldData`: nothing for a skipped element, else its descriptor. */
  function CreateFormFieldData(e: Element): (r: Option<FieldDescriptor>)
    ensures r.None? <==> SkippedType(e) || HoldsValue(e)
    ensures r.Some? ==> r.value.labelText == InferLabel(e)
    ensures r.Some? ==> r.value.options == (if IsSelect(e) then e.options else [])
    ensures r.Some? ==> r.value.kind == (if Truthy(e.kind) then e.kind.value else TagName(e))
  {
    if Skipped(e) then None
    else
      Some(FieldDescriptor(
        id := OrEmpty(e.id),
        name := OrEmpty(e.name),
        kind := if Truthy(e.kind) then e.kind.value else TagName(e),
        labelText := InferLabel(e),
        placeholder := OrEmpty(e.placeholder),
        required := e.required == Some(true),
        value := OrEmpty(e.value),
        options := if IsSelect(e) then e.options else []))
  }

  /** Hidden, submit, button and file elements are never described. */
  lemma ExcludedTypesAreSkipped(e: Element)
    requires e.kind in {Some("hidden"), Some("submit"), Some("button"), Some("file")}
    ensures CreateFormFieldData(e).None?
  {
  }

  /** An element of any other type is skipped exactly when its value is non-blank; a blank value is kept as it is. */
  lemma BlankValuesAreKept(e: Element)
    requires !SkippedType(e)
    ensures CreateFormFieldData(e).None? <==> e.value.Some? && !AllWhitespace(e.value.value)
    ensures CreateFormFieldData(e).Some? ==> CreateFormFieldData(e).value.value == OrEmpty(e.value)
  {
  }

  /** Missing properties take their defaults: `''` for id, name, placeholder and value, false for required. */
  lemma DescriptorDefaults(e: Element)
    requires !Skipped(e)
    ensures var d := CreateFormFieldData(e).value;
      && (e.id.None? ==> d.id == "") && (e.id.Some? ==> d.id == e.id.value)
      && (e.name.None? ==> d.name == "") && (e.name.Some? ==> d.name == e.name.value)
      && (e.placeholder.None? ==> d.placeholder == "") && (e.placeholder.Some? ==> d.placeholder == e.placeholder.value)
      && (e.value.None? ==> d.value == "") && (e.value.Some? ==> d.value == e.value.value)
      && (d.required <==> e.required == Some(true))
  {
  }

  /** No descriptor carries a non-blank value; so the only text the enclosing-label step can cut out is whitespace. */
  lemma DescriptorValueIsBlank(e: Element)
    requires CreateFormFieldData(e).Some?
    ensures AllWhitespace(CreateFormFieldData(e).value.value)
    ensures e.value.Some? ==> AllWhitespace(e.value.value)
  {
  }

  /** `.filter(field => field !== null)`, keeping the order. */
  function DropNone(s: seq<Option<FieldDescriptor>>): (r: seq<FieldDescriptor>)
    ensures |r| <= |s|
    ensures forall d :: d in r <==> Some(d) in s
  {
    if s == [] then []
    else
      assert s == [s[0]] + s[1..];
      (if s[0].Some? then [s[0].value] else []) + DropNone(s[1..])
  }

  lemma {:induction false} DropNoneAppend(a: seq<Option<FieldDescriptor>>, b: seq<Option<FieldDescriptor>>)
    ensures DropNone(a + b) == DropNone(a) + DropNone(b)
  {
    if a == [] {
      assert a + b == b;
    } else {
      assert (a + b)[0] == a[0];
      assert (a + b)[1..] == a[1..] + b;
      DropNoneAppend(a[1..], b);
    }
  }

  /** `map createFormFieldData` over the elements. */
  function CreateAll(els: seq<Element>): (r: seq<Option<FieldDescriptor>>)
    ensures |r| == |els| && forall i :: 0 <= i < |els| ==> r[i] == CreateFormFieldData(els[i])
  {
    seq(|els|, i requires 0 <= i < |els| => CreateFormFieldData(els[i]))
  }

  /** `gatherFormFieldsData`: the descriptors of a form's controls. */
  function GatherFormFieldsData(els: seq<Element>): (r: seq<FieldDescriptor>)
    ensures |r| <= |els|
    ensures forall d :: d in r <==> exists i :: 0 <= i < |els| && CreateFormFieldData(els[i]) == Some(d)
  {
    var all := CreateAll(els);
    assert forall d :: Some(d) in all <==> exists i :: 0 <= i < |els| && CreateFormFieldData(els[i]) == Some(d) by {
      forall d | Some(d) in all
        ensures exists i :: 0 <= i < |els| && CreateFormFieldData(els[i]) == Some(d)
      {
        var i :| 0 <= i < |all| && all[i] == Some(d);
        assert CreateFormFieldData(els[i]) == Some(d);
      }
    }
    DropNone(all)
  }

  /** Gathering preserves document order: the descriptors of a concatenation are those of its parts, in order. */
  lemma GatherAppend(a: seq<Element>, b: seq<Element>)
    ensures GatherFormFieldsData(a + b) == GatherFormFieldsData(a) + GatherFormFieldsData(b)
  {
    assert CreateAll(a + b) == CreateAll(a) + CreateAll(b);
    DropNoneAppend(CreateAll(a), CreateAll(b));
  }

  /** A single element yields its descriptor, or nothing when it is skipped. */
  lemma GatherSingle(e: Element)
    ensures GatherFormFieldsData([e]) == if Skipped(e) then [] else [CreateFormFieldData(e).value]
  {
    assert CreateAll([e]) == [CreateFormFieldData(e)];
    assert CreateAll([e])[1..] == [];
  }

  /** `filter` keeps every entry exactly when none of them is null. */
  lemma {:induction false} DropNoneKeepsAll(s: seq<Option<FieldDescriptor>>)
    ensures |DropNone(s)| == |s| <==> forall i :: 0 <= i < |s| ==> s[i].Some?
  {
    if s != [] {
      DropNoneKeepsAll(s[1..]);
      assert forall i :: 1 <= i < |s| ==> s[i] == s[1..][i - 1];
    }
  }

  /** Nothing is dropped unless it is skipped: every element is described exactly when none is skipped. */
  lemma GatherDropsOnlySkipped(els: seq<Element>)
    ensures |GatherFormFieldsData(els)| == |els| <==> forall i :: 0 <= i < |els| ==> !Skipped(els[i])
  {
    DropNoneKeepsAll(CreateAll(els));
  }
}
