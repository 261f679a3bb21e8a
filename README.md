# FormPilot page agent and fill envelope, in Dafny

FormPilot is a browser extension with a local server that suggests values for web
forms. This project models its page agent and the server's fill guard:

- how the agent turns each form control into a field descriptor (skip rule, three-step
  label inference, defaults, select options), and how it gathers a form's descriptors;
- how it applies the server's fill response: find the target by id then by name, then
  match a select option, set a checkbox or radio by truthiness, or assign the raw value,
  and dispatch `input`, `change` and `blur` on the target;
- how it clears every eligible control;
- how the server's `fillForm` refuses a request without fields and otherwise wraps the
  assistant's map in a success envelope.

The DOM is replaced by a table of element records in document order (`Dom.Element`).
The three document relations that label inference consults are abstract inputs on
each record: the text of the document's first `label[for=id]`, the text of the
enclosing `<label>`, and the previous element sibling with its tag and text.
Properties JavaScript may report as `undefined` are `Option`s. The filling and
clearing code changes elements in place, so it is a class, `PageAgent.Page`. The
class holds the table as an `array<Element>` and keeps a log of dispatched events.
Its methods are proved against specification functions on `seq<Element>`:
`FillElement`, `FillStep`, `FillAll`, `ClearElement`, `ClearAll` and `ClearEvents`.
The lemmas about the page agent are proved about those functions. Extraction and
the server logic are pure functions.

The form assistant (a language model) is a function parameter of `FillForm`. The
assistant keeps a chat memory per session (`@MemoryId`, FormAssistant.java:50), so
its answer may depend on earlier requests of the same session; the model abstracts
that away and takes the answer as a function of the session id and the fields alone.
`FillForm` returns the list of assistant calls it made along with the response,
so "called once, with the session id and the unchanged field list" can be stated.

`fillFormFields` has no try/catch, so an exception raised while one entry is
applied escapes the `forEach` and the remaining entries are not applied. Two come
from `fillField`: a value without a `toLowerCase` method (here a boolean) on a
select with options makes line 254 throw a TypeError, and a non-empty value
assigned to a file input makes line 267 throw an InvalidStateError, as the HTML
standard prescribes for the `value` setter of `<input type="file">`. The model
has both as `FieldFill.Threw` and `FillRun.threw`. The server's map is a
`Map<String, String>`, so its values are strings or Java `null` (sent as JSON
`null`); a `null` on a select with options would throw the same TypeError, but
null values are not modelled.

## Model

| member | source | states |
|---|---|---|
| Text.Trim | chrome-extension/js/content.js:152 | `trim()` gives `''` exactly when the string is all whitespace; otherwise the result starts and ends with non-whitespace |
| Text.TrimRemovesOnlyEnds | chrome-extension/js/content.js:152 | the string is the trimmed result with only whitespace before and after it; with the previous row this fixes the result |
| Text.TrimIdempotent | chrome-extension/js/content.js:170-173 | trimming an already trimmed label changes nothing |
| Text.IndexOf | chrome-extension/js/content.js:173 | the first position where the pattern occurs, or none when it occurs nowhere |
| Text.ReplaceFirst | chrome-extension/js/content.js:173 | with no occurrence the string is unchanged; with one, the result is as long as the string less the pattern plus the replacement |
| Text.ToLower | chrome-extension/js/content.js:188 | `toLowerCase()` keeps the length and lower-cases each character on its own |
| Text.ReplaceFirstCharacterized | chrome-extension/js/content.js:173 | `replace` with a string pattern cuts out only the earliest occurrence, and leaves the string alone when there is none |
| FieldExtraction.CreateFormFieldData | chrome-extension/js/content.js:145-206 | no descriptor exactly for a skipped type or a non-blank value; otherwise the label is the inferred one, options are the select's own (empty for any other tag), and type falls back to the lower-cased tag name |
| FieldExtraction.ExcludedTypesAreSkipped | chrome-extension/js/content.js:147-155 | hidden, submit, button and file elements yield no descriptor |
| FieldExtraction.BlankValuesAreKept | chrome-extension/js/content.js:152 | for other types, skipped exactly when the value is present and not all whitespace; a whitespace-only value is described and reported as it is |
| FieldExtraction.InferLabel | chrome-extension/js/content.js:157-184 | label inference as three guarded steps, each run only while the label is still empty; its meaning is stated by the next two rows |
| FieldExtraction.InferLabelIsFirstSource | chrome-extension/js/content.js:158-184 | the label is the first non-empty of: the `label[for=id]` text (only for a non-empty id), the enclosing label's text with the value's first occurrence cut and re-trimmed, and the previous sibling's text unless it is an input, textarea, select or button; else `''` |
| FieldExtraction.InferLabelIsTrimmed | chrome-extension/js/content.js:158-184 | an inferred label never starts or ends with whitespace |
| FieldExtraction.LabelFromForAttribute | chrome-extension/js/content.js:161-166 | id `x` with `label for="x"` reading `Name` gives the label `Name` |
| FieldExtraction.DescriptorDefaults | chrome-extension/js/content.js:196-205 | missing id, name, placeholder and value become `''`; required is true only when the property is true |
| FieldExtraction.DescriptorValueIsBlank | chrome-extension/js/content.js:152 | a described element's value is all whitespace, so the enclosing-label step of line 173 can only ever cut out whitespace |
| FieldExtraction.CreateAll | chrome-extension/js/content.js:135 | `map(createFormFieldData)`: one entry per element, in order, each that element's descriptor or null |
| FieldExtraction.DropNone | chrome-extension/js/content.js:136 | the filter keeps exactly the present descriptors and is no longer than its input |
| FieldExtraction.GatherFormFieldsData | chrome-extension/js/content.js:131-137 | output no longer than the input; a descriptor is in it exactly when some element maps to it |
| FieldExtraction.GatherAppend | chrome-extension/js/content.js:134-136 | gathering a concatenation gives the concatenation of the parts' descriptors, so document order is kept |
| FieldExtraction.GatherSingle | chrome-extension/js/content.js:134-136 | one element yields its descriptor, or nothing when skipped |
| FieldExtraction.GatherDropsOnlySkipped | chrome-extension/js/content.js:134-136 | every element is described exactly when none is skipped |
| PageAgent.FirstWithId | chrome-extension/js/content.js:224 | `getElementById`: the first element whose id is the key, and never one for `''` |
| PageAgent.FirstWithName | chrome-extension/js/content.js:227 | `[name=key]`: the first element whose name is the key |
| PageAgent.FindTarget | chrome-extension/js/content.js:223-228 | a found target is in the table and has the key as its id or as its name |
| PageAgent.FindTargetPrefersId | chrome-extension/js/content.js:223-228 | an element is the target exactly when it is the first with that id, or, when no element has that id, the first with that name |
| PageAgent.FindTargetNone | chrome-extension/js/content.js:223-233 | a key finds nothing exactly when no element has it as id (or it is `''`) and none has it as name |
| PageAgent.FindOption | chrome-extension/js/content.js:251-255 | the first option whose value equals the given value or whose text equals it ignoring case |
| PageAgent.FillElement | chrome-extension/js/content.js:246-268 | throws exactly for a boolean on a select with options, or for a non-empty value on a file input; otherwise changes only `value` and `checked`, and a boolean on a select without options changes nothing |
| PageAgent.FillSelect | chrome-extension/js/content.js:249-261 | a select takes the value of the first matching option, and is unchanged when no option matches |
| PageAgent.FillSelectIgnoresCase | chrome-extension/js/content.js:252-255 | with no earlier match, an option whose text equals the value ignoring case is chosen |
| PageAgent.FillCheckable | chrome-extension/js/content.js:262-264 | a checkbox or radio is checked exactly for `"true"` or `true`; its value is untouched |
| PageAgent.FillOther | chrome-extension/js/content.js:265-268 | any other element takes the raw value; a file input throws unless the value is `''` |
| PageAgent.FillStep | chrome-extension/js/content.js:223-236 | a found target makes the step throw exactly when its `fillField` throws, and the exception leaves table and events untouched; a filled target gets input, change and blur; a key with no target changes nothing |
| PageAgent.UnmatchedKeyIsSkipped | chrome-extension/js/content.js:226-233 | a key matching no id and no name changes no element and dispatches nothing |
| PageAgent.MatchedKeyFillsTarget | chrome-extension/js/content.js:235-236 | a matched key changes only its target and dispatches input, change, blur on it, whether or not a select option matched |
| PageAgent.FillAll | chrome-extension/js/content.js:222-237 | the entries in order, stopping at the first exception; the table keeps its length |
| PageAgent.FillAllKeepsTargets | chrome-extension/js/content.js:222-237 | filling never changes which element any key addresses |
| PageAgent.FillAllLeavesOthers | chrome-extension/js/content.js:222-237 | an element that no key of the response addresses is left exactly as it was |
| PageAgent.FillStepEvents | chrome-extension/js/content.js:235-236 | a step dispatches events only on the element its key addresses |
| PageAgent.FillAllExtend | chrome-extension/js/content.js:222-237 | after a prefix of the entries that raised no exception, the next entry is one more `FillStep` on the table so far, its events appended |
| PageAgent.FillAllEvents | chrome-extension/js/content.js:222-237 | every dispatched event targets an element that some key of the response addresses |
| PageAgent.FillAllEventCount | chrome-extension/js/content.js:222-237 | a run that raises nothing dispatches exactly three events per entry whose key addresses an element |
| PageAgent.FillAllStopsAtThrow | chrome-extension/js/content.js:222-237 | after an exception no later entry is applied |
| PageAgent.FillByNameExample | chrome-extension/js/content.js:213-237 | `{"email": "a@b.com"}` on a field named email sets its value and fires input, change and blur once each |
| PageAgent.ClearElement | chrome-extension/js/content.js:310-317 | at most `checked`, `selectedIndex` and `value` change |
| PageAgent.ClearElementCases | chrome-extension/js/content.js:298-317 | a non-control or a button, submit, reset, hidden or file element is unchanged; checkbox/radio get unchecked, a select gets index 0, others get `''`, and nothing else changes |
| PageAgent.ClearElementIdempotent | chrome-extension/js/content.js:298-321 | clearing an element twice is clearing it once |
| PageAgent.ClearAll | chrome-extension/js/content.js:298-321 | every element is replaced by its own reset, and the table keeps its length |
| PageAgent.ClearEvents | chrome-extension/js/content.js:298-321 | no more than three events per processed element in total, each aimed at an element processed so far |
| PageAgent.ClearEventsTargetEligible | chrome-extension/js/content.js:298-321 | the log holds three times as many events as there are eligible elements, and every event targets an eligible element, so skipped elements get none |
| PageAgent.ClearAllIdempotent | chrome-extension/js/content.js:292-324 | clearing a cleared page changes no element |
| PageAgent.Page.TriggerEvents | chrome-extension/js/content.js:279-287 | appends exactly input, change, blur, bubbling, on that element |
| PageAgent.Page.FillField | chrome-extension/js/content.js:246-272 | the table becomes `FillElement` of the target and the log gains its three events; on an exception nothing changes |
| PageAgent.Page.FillEntry | chrome-extension/js/content.js:222-237 | one response entry changes the table and log exactly as `FillStep` says |
| PageAgent.Page.FillFormFields | chrome-extension/js/content.js:213-238 | a missing response changes nothing; otherwise table, log and exception flag are exactly those of `FillAll` over the entries |
| PageAgent.Page.FillEntries | chrome-extension/js/content.js:222-237 | the `forEach` leaves table, log and exception flag exactly as `FillAll` over the entries says |
| PageAgent.Page.ClearAt | chrome-extension/js/content.js:298-321 | one element becomes `ClearElement` of itself, no other element changes, and the log gains its three events only when it is eligible |
| PageAgent.Page.ClearForms | chrome-extension/js/content.js:292-324 | the table becomes `ClearAll` of the old table and the log gains `ClearEvents` |
| FormPilotServer.Succeeded | src/main/java/ca/alihyder/formpilot/model/FormResponse.java:21-25 | success is true, the message is "Form fields filled successfully", and the map is stored unchanged |
| FormPilotServer.Error | src/main/java/ca/alihyder/formpilot/model/FormResponse.java:27-32 | success is false, the message is the given one, and filledValues stays null |
| FormPilotServer.ConstructorsAreDistinctAndInjective | src/main/java/ca/alihyder/formpilot/model/FormResponse.java:21-32 | a success is never an error, and each constructor is determined by its argument |
| FormPilotServer.FillForm | src/main/java/ca/alihyder/formpilot/service/FormFillerService.java:41-49 | with no fields it returns `error("No form fields provided")` and calls nothing; otherwise it calls the assistant once with the session id and the unchanged fields, and returns a success carrying exactly its map |
| FormPilotServer.FillFormSucceedsIffFields | src/main/java/ca/alihyder/formpilot/service/FormFillerService.java:42-48 | success exactly when the field list is present and non-empty; at most one assistant call |
| FormPilotServer.FillFormRefusals | src/main/java/ca/alihyder/formpilot/service/FormFillerService.java:42-44 | a null request, a null field list and an empty one are refused alike |

## Left out

- Extension messaging (`chrome.runtime`), the settings read (`chrome.storage`), the `DOMContentLoaded` hook, the `setTimeout` delay and console logging: I/O and timing.
- `scanForForms` and `scanForFormFields`: they only choose which element sets travel over messaging. The model has no messaging.
- The coordinator (`background.js`) and the control panel (`popup.js`): context menus, `fetch`, promises and UI state, all I/O.
- The HTTP controller, the Jackson and retrieval configuration, and the assistant's prompt. The assistant's answer is a function parameter of `FillForm`. Exceptions it may throw (`@SneakyThrows`) are not modelled.
- DOM traversal, CSS selector strings and `textContent`: these are given on each element record.
- FieldExtraction.InferLabel: the element's id is spliced into the selector `label[for="id"]`. An id containing `"` makes `querySelector` throw a SyntaxError, which escapes `createFormFieldData` and the `map` of `gatherFormFieldsData` and aborts the scan; a backslash is read as a CSS escape. The model takes the for-label text as given on the record and never throws.
- PageAgent.MatchedKeyFillsTarget: setting `checked = true` on a radio unchecks the other radios of its group (same name, same form owner) in a browser. The model has no radio groups, so only the target changes.
- PageAgent.FillAllLeavesOthers: for the same reason, a radio no key addresses may be unchecked in a browser when a group-mate is checked; the model leaves it as it was.
- PageAgent.Page.FillField: the table changes only at the target; the unchecking of a checked radio's group-mates is not modelled.
- PageAgent.FirstWithName: a response key is spliced into the selector `[name="key"]`. A key containing `"` makes `querySelector` throw a SyntaxError, and a backslash is read as a CSS escape. The model compares the key with each name as it is and never throws.
- PageAgent.FillElement: number, email, date, color, range and similar inputs sanitise a string assigned to `value`. The model stores the raw string. The file-input InvalidStateError is modelled.
- PageAgent.ClearElement: the same sanitisation applies to the `''` written when clearing. The model stores `''` as it is.
- Text.ToLower: only ASCII letters are lower-cased. JavaScript's full Unicode case mapping is not modelled.
- The DOM ties a select's `value` to its `selectedIndex`. The model keeps them as independent fields: filling writes `value` and clearing writes `selectedIndex`. An empty select's index after clearing (-1 in a browser) is not modelled.
- Fill values are strings or booleans. Numbers, null and objects in a response are not modelled. A boolean assigned to a non-control element is stored in string form (a browser keeps the boolean as an expando).
- `Object.entries` order: the response is given as a sequence of entries in that order.
- Page scripts that react to the dispatched events are not modelled. Events are only logged, with their type, target and bubbling flag.
- The server-side `FormField` metadata (autocomplete, pattern, lengths, min, max) is carried as shape only. JSON conversion between the two sides is not modelled.
