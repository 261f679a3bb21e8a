/**
 * Fill application and clearing.  The specification functions describe, on a
 * value `seq<Element>`, what one fill, a whole fill response and a clear do
 * to the element table and which events they dispatch; the class `Page`
 * holds the table as an array and the event log, and its methods do the
 * work in place and are proved against those functions.
 */
module PageAgent {
  import opened Wrappers
  import opened Text
  import opened Dom

  // ---------------------------------------------------------------- lookup

  /** `document.getElementById(key)`: the first element whose id is `key`; never an element for `''`. */
  function FirstWithId(els: seq<Element>, key: string): (r: Option<nat>)
    ensures r.Some? ==> r.value < |els| && key != "" && els[r.value].id == Some(key)
    ensures r.Some? ==> forall j :: 0 <= j < r.value ==> els[j].id != Some(key)
    ensures r.None? ==> key == "" || forall j :: 0 <= j < |els| ==> els[j].id != Some(key)
  {
    if key == "" || els == [] then None
    else if els[0].id == Some(key) then Some(0)
    else match FirstWithId(els[1..], key)
      case None => None
      case Some(k) => Some(k + 1)
  }

  /** `document.querySelector('[name="key"]')`: the first element whose name is `key`. */
  function FirstWithName(els: seq<Element>, key: string): (r: Option<nat>)
    ensures r.Some? ==> r.value < |els| && els[r.value].name == Some(key)
    ensures r.Some? ==> forall j :: 0 <= j < r.value ==> els[j].name != Some(key)
    ensures r.None? ==> forall j :: 0 <= j < |els| ==> els[j].name != Some(key)
  {
    if els == [] then None
    else if els[0].name == Some(key) then Some(0)
    else match FirstWithName(els[1..], key)
      case None => None
      case Some(k) => Some(k + 1)
  }

  /** The element a fill-response key addresses: by id first, then by name. */
  function FindTarget(els: seq<Element>, key: string): (r: Option<nat>)
    ensures r.Some? ==> r.value < |els| && (els[r.value].id == Some(key) || els[r.value].name == Some(key))
  {
    match FirstWithId(els, key)
    case Some(i) => Some(i)
    case None => FirstWithName(els, key)
  }

  /** The target is the first element with id `key` when there is one, else the first with name `key`, else none. */
  lemma FindTargetPrefersId(els: seq<Element>, key: string, i: nat)
    requires i < |els|
    ensures FindTarget(els, key) == Some(i) <==>
      || (key != "" && els[i].id == Some(key) && forall j :: 0 <= j < i ==> els[j].id != Some(key))
      || ((key == "" || forall j :: 0 <= j < |els| ==> els[j].id != Some(key))
          && els[i].name == Some(key) && forall j :: 0 <= j < i ==> els[j].name != Some(key))
  {
    var byId := FirstWithId(els, key);
    if byId.Some? {
      var b := byId.value;
      assert i < b ==> els[i].id != Some(key);
    }
    var byName := FirstWithName(els, key);
    if byName.Some? {
      var b := byName.value;
      assert i < b ==> els[i].name != Some(key);
    }
  }

  /** A key addresses nothing exactly when no element has it as its id (or it is `''`) and none has it as its name. */
  lemma FindTargetNone(els: seq<Element>, key: string)
    ensures FindTarget(els, key).None? <==>
      (key == "" || forall j :: 0 <= j < |els| ==> els[j].id != Some(key)) && forall j :: 0 <= j < |els| ==> els[j].name != Some(key)
  {
  }

  /** Lookup reads only ids and names. */
  lemma {:induction false} FindTargetReadsKeys(a: seq<Element>, b: seq<Element>, key: string)
    requires |a| == |b|
    requires forall j :: 0 <= j < |a| ==> a[j].id == b[j].id && a[j].name == b[j].name
    ensures FindTarget(a, key) == FindTarget(b, key)
  {
    assert FirstWithId(a, key) == FirstWithId(b, key) by { FirstWithIdReadsIds(a, b, key); }
    assert FirstWithName(a, key) == FirstWithName(b, key) by { FirstWithNameReadsNames(a, b, key); }
  }

  lemma {:induction false} FirstWithIdReadsIds(a: seq<Element>, b: seq<Element>, key: string)
    requires |a| == |b|
    requires forall j :: 0 <= j < |a| ==> a[j].id == b[j].id
    ensures FirstWithId(a, key) == FirstWithId(b, key)
  {
    if a != [] && key != "" && a[0].id != Some(key) {
      FirstWithIdReadsIds(a[1..], b[1..], key);
    }
  }

  lemma {:induction false} FirstWithNameReadsNames(a: seq<Element>, b: seq<Element>, key: string)
    requires |a| == |b|
    requires forall j :: 0 <= j < |a| ==> a[j].name == b[j].name
    ensures FirstWithName(a, key) == FirstWithName(b, key)
  {
    if a != [] && a[0].name != Some(key) {
      FirstWithNameReadsNames(a[1..], b[1..], key);
    }
  }

  // ------------------------------------------------------ filling one field

  /** The option test of `fillField`: exact value, or display text equal ignoring case. */
  predicate OptionMatches(o: SelectOption, s: string)
  {
    o.value == s || ToLower(o.text) == ToLower(s)
  }

  /** `options.find(...)`: the index of the first option that matches `s`. */
  function FindOption(options: seq<SelectOption>, s: string): (r: Option<nat>)
    ensures r.Some? ==> r.value < |options| && OptionMatches(options[r.value], s)
    ensures r.Some? ==> forall k :: 0 <= k < r.value ==> !OptionMatches(options[k], s)
    ensures r.None? ==> forall k :: 0 <= k < |options| ==> !OptionMatches(options[k], s)
  {
    if options == [] then None
    else if OptionMatches(options[0], s) then Some(0)
    else match FindOption(options[1..], s)
      case None => None
      case Some(k) => Some(k + 1)
  }

  /** What assigning a fill value to `element.value` stores. */
  function DomString(v: FillValue): string
  {
    match v
    case Str(s) => s
    case Bool(b) => if b then "true" else "false"
  }

  /** `value === 'true' || value === true` */
  predicate IsTrue(v: FillValue)
  {
    v == Str("true") || v == Bool(true)
  }

  /** The outcome of `fillField` on one element: an exception, or the element afterwards. */
  datatype FieldFill = Threw | Filled(element: Element)

  /** Assigning to `value` on a file input throws InvalidStateError unless the string is empty. */
  predicate RejectsValue(e: Element, v: FillValue)
  {
    e.kind == Some("file") && DomString(v) != ""
  }

  /**
   * `fillField` without its events.  A boolean value on a select with options
   * reaches `value.toLowerCase()` and throws a TypeError before anything is
   * assigned; a non-empty value assigned to a file input throws an
   * InvalidStateError.  Only `value` and `checked` can change.
   */
  function FillElement(e: Element, v: FillValue): (r: FieldFill)
    ensures r.Threw? <==>
      || (IsSelect(e) && v.Bool? && |e.options| > 0)
      || (!IsSelect(e) && !IsCheckable(e) && RejectsValue(e, v))
    ensures r.Filled? ==> r.element == e.(value := r.element.value, checked := r.element.checked)
    ensures IsSelect(e) && v.Bool? && |e.options| == 0 ==> r == Filled(e)
  {
    if IsSelect(e) then
      match v
      case Str(s) =>
        (match FindOption(e.options, s)
         case Some(k) => Filled(e.(value := Some(e.options[k].value)))
         case None => Filled(e))
      case Bool(_) => if |e.options| > 0 then Threw else Filled(e)
    else if IsCheckable(e) then
      Filled(e.(checked := IsTrue(v)))
    else if RejectsValue(e, v) then
      Threw
    else
      Filled(e.(value := Some(DomString(v))))
  }

  /** A select takes the value of the first matching option, and stays as it was when none matches. */
  lemma FillSelect(e: Element, s: string)
    requires IsSelect(e)
    ensures forall k :: (0 <= k < |e.options| && OptionMatches(e.options[k], s) &&
                         (forall j :: 0 <= j < k ==> !OptionMatches(e.options[j], s))) ==>
      FillElement(e, Str(s)) == Filled(e.(value := Some(e.options[k].value)))
    ensures (forall k :: 0 <= k < |e.options| ==> !OptionMatches(e.options[k], s)) ==>
      FillElement(e, Str(s)) == Filled(e)
  {
    forall k | 0 <= k < |e.options| && OptionMatches(e.options[k], s) &&
        (forall j :: 0 <= j < k ==> !OptionMatches(e.options[j], s))
      ensures FillElement(e, Str(s)) == Filled(e.(value := Some(e.options[k].value)))
    {
      var found := FindOption(e.options, s);
      assert found.Some?;
    }
  }

  /** Without an exact value match, an option whose text equals the value ignoring case is chosen. */
  lemma FillSelectIgnoresCase(e: Element, s: string, k: nat)
    requires IsSelect(e) && k < |e.options|
    requires ToLower(e.options[k].text) == ToLower(s)
    requires forall j :: 0 <= j < k ==> !OptionMatches(e.options[j], s)
    ensures FillElement(e, Str(s)) == Filled(e.(value := Some(e.options[k].value)))
  {
    FillSelect(e, s);
  }

  /** A checkbox or radio (not a select) is checked exactly for `"true"` and `true`, and nothing else of it changes. */
  lemma FillCheckable(e: Element, v: FillValue)
    requires !IsSelect(e) && IsCheckable(e)
    ensures FillElement(e, v).Filled?
    ensures FillElement(e, v).element.checked <==> v == Str("true") || v == Bool(true)
    ensures FillElement(e, v).element.value == e.value
  {
  }

  /** Any other element takes the raw value, except that a file input accepts only `''`. */
  lemma FillOther(e: Element, v: FillValue)
    requires !IsSelect(e) && !IsCheckable(e)
    ensures e.kind != Some("file") ==> FillElement(e, v) == Filled(e.(value := Some(DomString(v))))
    ensures v.Str? && e.kind != Some("file") ==> FillElement(e, v).element.value == Some(v.s)
    ensures e.kind == Some("file") ==> (FillElement(e, v).Threw? <==> DomString(v) != "")
    ensures e.kind == Some("file") && DomString(v) == "" ==> FillElement(e, v) == Filled(e.(value := Some("")))
  {
  }

  // ------------------------------------------------- filling from a response

  /** The table after a step, the events dispatched so far, and whether an exception escaped. */
  datatype FillRun = FillRun(elements: seq<Element>, events: seq<Event>, threw: bool)

  /** One entry of `fillFormFields`: look up the target, fill it and notify, or skip the key. */
  function FillStep(els: seq<Element>, key: string, v: FillValue): (r: FillRun)
    ensures |r.elements| == |els|
    ensures r.threw ==> r.elements == els && r.events == []
    ensures !r.threw && FindTarget(els, key).Some? ==> r.events == EventsFor(FindTarget(els, key).value)
    ensures FindTarget(els, key).None? ==> !r.threw && r.elements == els && r.events == []
    ensures FindTarget(els, key).Some? ==> (r.threw <==> FillElement(els[FindTarget(els, key).value], v).Threw?)
  {
    match FindTarget(els, key)
    case None => FillRun(els, [], false)
    case Some(i) =>
      match FillElement(els[i], v)
      case Threw => FillRun(els, [], true)
      case Filled(e') => FillRun(els[i := e'], EventsFor(i), false)
  }

  /** The entries of a fill response, in order, stopping at the first exception. */
  function FillAll(els: seq<Element>, entries: seq<(string, FillValue)>): (r: FillRun)
    ensures |r.elements| == |els|
    decreases |entries|
  {
    if entries == [] then FillRun(els, [], false)
    else
      var prev := FillAll(els, entries[..|entries| - 1]);
      if prev.threw then prev
      else
        var last := entries[|entries| - 1];
        var step := FillStep(prev.elements, last.0, last.1);
        FillRun(step.elements, prev.events + step.events, step.threw)
  }

  /** Processing one more entry after a prefix that did not throw. */
  lemma FillAllExtend(els: seq<Element>, entries: seq<(string, FillValue)>, i: nat)
    requires i < |entries|
    requires !FillAll(els, entries[..i]).threw
    ensures var prev := FillAll(els, entries[..i]);
      var step := FillStep(prev.elements, entries[i].0, entries[i].1);
      FillAll(els, entries[..i + 1]) == FillRun(step.elements, prev.events + step.events, step.threw)
  {
    assert entries[..i + 1][..i] == entries[..i];
  }

  /** A key that addresses no element changes nothing and dispatches nothing. */
  lemma UnmatchedKeyIsSkipped(els: seq<Element>, key: string, v: FillValue)
    requires (key == "" || forall j :: 0 <= j < |els| ==> els[j].id != Some(key))
    requires forall j :: 0 <= j < |els| ==> els[j].name != Some(key)
    ensures FillStep(els, key, v) == FillRun(els, [], false)
  {
    FindTargetNone(els, key);
  }

  /** A matched key fills its target alone and dispatches input, change and blur on it, matched option or not. */
  lemma MatchedKeyFillsTarget(els: seq<Element>, key: string, v: FillValue, i: nat)
    requires FindTarget(els, key) == Some(i)
    requires FillElement(els[i], v).Filled?
    ensures FillStep(els, key, v).elements == els[i := FillElement(els[i], v).element]
    ensures FillStep(els, key, v).events == EventsFor(i)
    ensures !FillStep(els, key, v).threw
  {
  }

  /** A fill step keeps every id and name, so every key finds the same target before and after. */
  lemma FillStepKeepsTargets(els: seq<Element>, key: string, v: FillValue, other: string)
    ensures FindTarget(FillStep(els, key, v).elements, other) == FindTarget(els, other)
  {
    FindTargetReadsKeys(FillStep(els, key, v).elements, els, other);
  }

  /** Filling preserves every target. */
  lemma {:induction false} FillAllKeepsTargets(els: seq<Element>, entries: seq<(string, FillValue)>, other: string)
    ensures FindTarget(FillAll(els, entries).elements, other) == FindTarget(els, other)
    decreases |entries|
  {
    if entries != [] {
      var prev := FillAll(els, entries[..|entries| - 1]);
      FillAllKeepsTargets(els, entries[..|entries| - 1], other);
      if !prev.threw {
        var last := entries[|entries| - 1];
        FillStepKeepsTargets(prev.elements, last.0, last.1, other);
      }
    }
  }

  /** An element no key addresses is left exactly as it was. */
  lemma {:induction false} FillAllLeavesOthers(els: seq<Element>, entries: seq<(string, FillValue)>, j: nat)
    requires j < |els|
    requires forall k :: 0 <= k < |entries| ==> FindTarget(els, entries[k].0) != Some(j)
    ensures FillAll(els, entries).elements[j] == els[j]
    decreases |entries|
  {
    if entries != [] {
      var init := entries[..|entries| - 1];
      assert forall k :: 0 <= k < |init| ==> init[k] == entries[k];
      FillAllLeavesOthers(els, init, j);
      var prev := FillAll(els, init);
      if !prev.threw {
        var last := entries[|entries| - 1];
        FillAllKeepsTargets(els, init, last.0);
      }
    }
  }

  /** A step dispatches events only on the target of its key. */
  lemma FillStepEvents(els: seq<Element>, key: string, v: FillValue)
    ensures var r := FillStep(els, key, v);
      forall m :: 0 <= m < |r.events| ==> FindTarget(els, key) == Some(r.events[m].target)
  {
  }

  /** Some key of the response addresses the element at `j`. */
  ghost predicate Addressed(els: seq<Element>, entries: seq<(string, FillValue)>, j: nat)
  {
    exists k :: 0 <= k < |entries| && FindTarget(els, entries[k].0) == Some(j)
  }

  lemma AddressedByPrefix(els: seq<Element>, entries: seq<(string, FillValue)>, n: nat, j: nat)
    requires n <= |entries| && Addressed(els, entries[..n], j)
    ensures Addressed(els, entries, j)
  {
    var k :| 0 <= k < n && FindTarget(els, entries[..n][k].0) == Some(j);
    assert entries[..n][k] == entries[k];
  }

  /** Every event dispatched goes to an element some key of the response addresses. */
  lemma {:induction false} FillAllEvents(els: seq<Element>, entries: seq<(string, FillValue)>)
    ensures forall m :: 0 <= m < |FillAll(els, entries).events| ==> Addressed(els, entries, FillAll(els, entries).events[m].target)
    decreases |entries|
  {
    if entries != [] {
      var n := |entries| - 1;
      var init := entries[..n];
      FillAllEvents(els, init);
      var prev := FillAll(els, init);
      if !prev.threw {
        var last := entries[n];
        var step := FillStep(prev.elements, last.0, last.1);
        FillAllKeepsTargets(els, init, last.0);
        FillStepEvents(prev.elements, last.0, last.1);
        var evs := prev.events + step.events;
        assert FillAll(els, entries).events == evs;
        forall m | 0 <= m < |evs|
          ensures Addressed(els, entries, evs[m].target)
        {
          if m < |prev.events| {
            AddressedByPrefix(els, entries, n, prev.events[m].target);
          } else {
            assert step.events[m - |prev.events|] == evs[m];
          }
        }
      }
    }
  }

  /** The number of entries whose key addresses some element. */
  function CountTargeted(els: seq<Element>, entries: seq<(string, FillValue)>): nat
    decreases |entries|
  {
    if entries == [] then 0
    else CountTargeted(els, entries[..|entries| - 1]) + (if FindTarget(els, entries[|entries| - 1].0).Some? then 1 else 0)
  }

  /** A run that raises nothing dispatches exactly three events per entry whose key addresses an element. */
  lemma {:induction false} FillAllEventCount(els: seq<Element>, entries: seq<(string, FillValue)>)
    ensures !FillAll(els, entries).threw ==> |FillAll(els, entries).events| == 3 * CountTargeted(els, entries)
    decreases |entries|
  {
    if entries != [] {
      var init := entries[..|entries| - 1];
      FillAllEventCount(els, init);
      var prev := FillAll(els, init);
      if !prev.threw {
        var last := entries[|entries| - 1];
        FillAllKeepsTargets(els, init, last.0);
      }
    }
  }

  /** Once an exception has escaped, the later entries are never processed. */
  lemma {:induction false} FillAllStopsAtThrow(els: seq<Element>, entries: seq<(string, FillValue)>, n: nat)
    requires n <= |entries|
    requires FillAll(els, entries[..n]).threw
    ensures FillAll(els, entries) == FillAll(els, entries[..n])
    decreases |entries| - n
  {
    if n < |entries| {
      var longer := entries[..n + 1];
      assert longer[..|longer| - 1] == entries[..n];
      FillAllStopsAtThrow(els, entries, n + 1);
    } else {
      assert entries[..n] == entries;
    }
  }

  /** A response `{"email": "a@b.com"}` on a page whose one field is named email fills it and notifies once per event. */
  lemma FillByNameExample(e: Element)
    requires e.id != Some("email") && e.name == Some("email") && !IsSelect(e) && !IsCheckable(e) && e.kind != Some("file")
    ensures FillAll([e], [("email", Str("a@b.com"))]) ==
      FillRun([e.(value := Some("a@b.com"))], [Event(Input, 0, true), Event(Change, 0, true), Event(Blur, 0, true)], false)
  {
    var entries := [("email", Str("a@b.com"))];
    assert entries[..0] == [];
    assert FindTarget([e], "email") == Some(0);
  }

  // ------------------------------------------------------------- clearing

  /** The types `clearForms` leaves alone. */
  predicate ClearSkippedType(e: Element)
  {
    e.kind in {Some("button"), Some("submit"), Some("reset"), Some("hidden"), Some("file")}
  }

  /** The elements `clearForms` resets. */
  predicate Clearable(e: Element)
  {
    IsFormControl(e) && !ClearSkippedType(e)
  }

  /** The reset of `clearForms` on one element; at most one of checked, selectedIndex and value changes. */
  function ClearElement(e: Element): (r: Element)
    ensures r == e.(checked := r.checked, selectedIndex := r.selectedIndex, value := r.value)
  {
    if !Clearable(e) then e
    else if IsCheckable(e) then e.(checked := false)
    else if IsSelect(e) then e.(selectedIndex := 0)
    else e.(value := Some(""))
  }

  /** The empty state of an element: unchecked, first option, or empty value. */
  predicate IsCleared(e: Element)
  {
    if IsCheckable(e) then !e.checked
    else if IsSelect(e) then e.selectedIndex == 0
    else e.value == Some("")
  }

  /** A skipped element is unchanged; an eligible one is reset to its empty state with one field changed. */
  lemma ClearElementCases(e: Element)
    ensures !Clearable(e) ==> ClearElement(e) == e
    ensures Clearable(e) ==> IsCleared(ClearElement(e))
    ensures Clearable(e) && IsCheckable(e) ==> ClearElement(e) == e.(checked := false)
    ensures Clearable(e) && !IsCheckable(e) && IsSelect(e) ==> ClearElement(e) == e.(selectedIndex := 0)
    ensures Clearable(e) && !IsCheckable(e) && !IsSelect(e) ==> ClearElement(e) == e.(value := Some(""))
  {
  }

  /** Clearing twice is clearing once. */
  lemma ClearElementIdempotent(e: Element)
    ensures ClearElement(ClearElement(e)) == ClearElement(e)
  {
  }

  /** The table after `clearForms`. */
  function ClearAll(els: seq<Element>): (r: seq<Element>)
    ensures |r| == |els| && forall j :: 0 <= j < |els| ==> r[j] == ClearElement(els[j])
  {
    seq(|els|, j requires 0 <= j < |els| => ClearElement(els[j]))
  }

  /** The events `clearForms` dispatches on the first `n` elements: a triple for each eligible one, in order. */
  function ClearEvents(els: seq<Element>, n: nat): (evs: seq<Event>)
    requires n <= |els|
    ensures |evs| <= 3 * n
    ensures forall m :: 0 <= m < |evs| ==> evs[m].target < n
  {
    if n == 0 then []
    else ClearEvents(els, n - 1) + (if Clearable(els[n - 1]) then EventsFor(n - 1) else [])
  }

  /** The number of eligible elements among the first `n`. */
  function CountClearable(els: seq<Element>, n: nat): nat
    requires n <= |els|
  {
    if n == 0 then 0 else CountClearable(els, n - 1) + (if Clearable(els[n - 1]) then 1 else 0)
  }

  /** Every clear event targets an eligible element, and each eligible element gets exactly three. */
  lemma {:induction false} ClearEventsTargetEligible(els: seq<Element>, n: nat)
    requires n <= |els|
    ensures |ClearEvents(els, n)| == 3 * CountClearable(els, n)
    ensures forall m :: 0 <= m < |ClearEvents(els, n)| ==>
      ClearEvents(els, n)[m].target < n && Clearable(els[ClearEvents(els, n)[m].target])
  {
    if n > 0 {
      ClearEventsTargetEligible(els, n - 1);
      var prev := ClearEvents(els, n - 1);
      forall m | 0 <= m < |ClearEvents(els, n)|
        ensures ClearEvents(els, n)[m].target < n && Clearable(els[ClearEvents(els, n)[m].target])
      {
        if m < |prev| {
          assert ClearEvents(els, n)[m] == prev[m];
        }
      }
    }
  }

  /** Clearing a cleared table changes nothing. */
  lemma ClearAllIdempotent(els: seq<Element>)
    ensures ClearAll(ClearAll(els)) == ClearAll(els)
  {
    forall j | 0 <= j < |els|
      ensures ClearAll(ClearAll(els))[j] == ClearAll(els)[j]
    {
      ClearElementIdempotent(els[j]);
    }
  }

  // ------------------------------------------------------------ the page

  /** The page: its element table, updated in place, and the log of dispatched events. */
  class Page {
    const elements: array<Element>
    var events: seq<Event>

    constructor (initial: seq<Element>)
      ensures fresh(elements) && elements[..] == initial && events == []
    {
      elements := new Element[|initial|](j requires 0 <= j < |initial| => initial[j]);
      events := [];
    }

    /** `triggerEvents`: dispatch input, change and blur, bubbling, on the element at `i`. */
    method TriggerEvents(i: nat)
      modifies this`events
      ensures events == old(events) + EventsFor(i)
    {
      var kinds := [Input, Change, Blur];
      for k := 0 to 3
        invariant events == old(events) + EventsFor(i)[..k]
      {
        events := events + [Event(kinds[k], i, true)];
      }
    }

    /** `fillField` on the element at `i`; `threw` when an exception escapes, with nothing changed. */
    method FillField(i: nat, v: FillValue) returns (threw: bool)
      requires i < elements.Length
      modifies elements, this`events
      ensures threw == FillElement(old(elements[i]), v).Threw?
      ensures threw ==> elements[..] == old(elements[..]) && events == old(events)
      ensures !threw ==> elements[..] == old(elements[..])[i := FillElement(old(elements[i]), v).element]
      ensures !threw ==> events == old(events) + EventsFor(i)
    {
      var e := elements[i];
      threw := false;
      if TagName(e) == "select" {
        match v {
          case Str(s) =>
            var found := FindOption(e.options, s);
            if found.Some? {
              elements[i] := e.(value := Some(e.options[found.value].value));
            }
          case Bool(_) =>
            if |e.options| > 0 {
              threw := true;
              return;
            }
        }
      } else if e.kind == Some("checkbox") || e.kind == Some("radio") {
        elements[i] := e.(checked := v == Str("true") || v == Bool(true));
      } else {
        var text := DomString(v);
        if e.kind == Some("file") && text != "" {
          threw := true;
          return;
        }
        elements[i] := e.(value := Some(text));
      }
      TriggerEvents(i);
    }

    /**
     * `fillFormFields`: nothing for a missing response; otherwise every entry
     * in order, until an exception escapes.
     */
    method FillFormFields(filledValues: Option<seq<(string, FillValue)>>) returns (threw: bool)
      modifies elements, this`events
      ensures filledValues.None? ==> !threw && elements[..] == old(elements[..]) && events == old(events)
      ensures filledValues.Some? ==>
        var run := FillAll(old(elements[..]), filledValues.value);
        elements[..] == run.elements && events == old(events) + run.events && threw == run.threw
    {
      threw := false;
      if filledValues.None? {
        return;
      }
      threw := FillEntries(filledValues.value);
    }

    /** The `forEach` over the entries of a present response. */
    method FillEntries(entries: seq<(string, FillValue)>) returns (threw: bool)
      modifies elements, this`events
      ensures var run := FillAll(old(elements[..]), entries);
        elements[..] == run.elements && events == old(events) + run.events && threw == run.threw
    {
      ghost var init := elements[..];
      assert entries[..0] == [];
      ghost var done := FillAll(init, entries[..0]);
      threw := false;
      for i := 0 to |entries|
        invariant done == FillAll(init, entries[..i])
        invariant !done.threw && elements[..] == done.elements && events == old(events) + done.events
      {
        FillAllExtend(init, entries, i);
        threw := FillEntry(entries[i].0, entries[i].1);
        done := FillAll(init, entries[..i + 1]);
        if threw {
          FillAllStopsAtThrow(init, entries, i + 1);
          return;
        }
      }
      assert entries[..|entries|] == entries;
    }

    /** One entry of the fill response: find its element by id, then name, and fill it; skip the key otherwise. */
    method FillEntry(key: string, v: FillValue) returns (threw: bool)
      modifies elements, this`events
      ensures var step := FillStep(old(elements[..]), key, v);
        elements[..] == step.elements && events == old(events) + step.events && threw == step.threw
    {
      threw := false;
      var target := FindTarget(elements[..], key);
      if target.Some? {
        threw := FillField(target.value, v);
      }
    }

    /** `clearForms`: reset every eligible element and notify it; leave the rest alone. */
    method ClearForms()
      modifies elements, this`events
      ensures elements[..] == ClearAll(old(elements[..]))
      ensures events == old(events) + ClearEvents(old(elements[..]), elements.Length)
    {
      ghost var init := elements[..];
      var i := 0;
      while i < elements.Length
        invariant 0 <= i <= elements.Length
        invariant forall j :: 0 <= j < i ==> elements[j] == ClearElement(init[j])
        invariant forall j :: i <= j < elements.Length ==> elements[j] == init[j]
        invariant events == old(events) + ClearEvents(init, i)
      {
        ClearAt(i);
        i := i + 1;
      }
      ghost var cleared := ClearAll(init);
      assert forall j :: 0 <= j < |cleared| ==> elements[j] == cleared[j];
    }

    /** The body of the `forEach` in `clearForms`, on the element at `i`. */
    method ClearAt(i: nat)
      requires i < elements.Length
      modifies elements, this`events
      ensures elements[i] == ClearElement(old(elements[i]))
      ensures forall j :: 0 <= j < elements.Length && j != i ==> elements[j] == old(elements[j])
      ensures events == old(events) + (if Clearable(old(elements[i])) then EventsFor(i) else [])
    {
      var e := elements[i];
      if !IsFormControl(e) {
        return;
      }
      if e.kind == Some("button") || e.kind == Some("submit") || e.kind == Some("reset")
         || e.kind == Some("hidden") || e.kind == Some("file") {
        return;
      }
      if e.kind == Some("checkbox") || e.kind == Some("radio") {
        elements[i] := e.(checked := false);
      } else if TagName(e) == "select" {
        elements[i] := e.(selectedIndex := 0);
      } else {
        elements[i] := e.(value := Some(""));
      }
      TriggerEvents(i);
    }
  }
}
