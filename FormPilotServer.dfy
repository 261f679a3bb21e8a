/**
 * The server's fill endpoint logic: `FormFillerService.fillForm` guards the
 * request and hands the field list to the form assistant (a language model,
 * taken here as an arbitrary function of the session id and the fields), and
 * `FormResponse` is the envelope it returns.
 */
module FormPilotServer {
  import opened Wrappers

  /** An option of a field as the server receives it. */
  datatype FieldOption = FieldOption(text: Option<string>, value: Option<string>, selected: bool)

  /** `FormField`: one field of the request. */
  datatype FormField = FormField(
    id: Option<string>,
    name: Option<string>,
    kind: Option<string>,
    labelText: Option<string>,
    placeholder: Option<string>,
    required: bool,
    value: Option<string>,
    options: Option<seq<FieldOption>>,
    autocomplete: Option<string>,
    pattern: Option<string>,
    minLength: Option<int>,
    maxLength: Option<int>,
    min: Option<string>,
    max: Option<string>
  )

  /** `FormData`: the request body; each part may be JSON null. */
  datatype FormData = FormData(url: Option<string>, pageTitle: Option<string>, fields: Option<seq<FormField>>)

  /** `FormResponse`: the envelope of the reply. */
  datatype FormResponse = FormResponse(filledValues: Option<map<string, string>>, message: Option<string>, success: bool)

  const SuccessMessage: string := "Form fields filled successfully"
  const NoFieldsMessage: string := "No form fields provided"

  /** `new FormResponse(filledValues)`: a success carrying the map as given. */
  function Succeeded(filledValues: map<string, string>): (r: FormResponse)
    ensures r.success
    ensures r.message == Some(SuccessMessage)
    ensures r.filledValues == Some(filledValues)
  {
    FormResponse(Some(filledValues), Some(SuccessMessage), true)
  }

  /** `FormResponse.error(message)`: a failure with the message and no values. */
  function Error(message: string): (r: FormResponse)
    ensures !r.success
    ensures r.message == Some(message)
    ensures r.filledValues.None?
  {
    FormResponse(None, Some(message), false)
  }

  /** The two constructors never produce the same envelope, and each is determined by its argument. */
  lemma ConstructorsAreDistinctAndInjective(m1: map<string, string>, m2: map<string, string>, e1: string, e2: string)
    ensures Succeeded(m1) != Error(e1)
    ensures Succeeded(m1) == Succeeded(m2) ==> m1 == m2
    ensures Error(e1) == Error(e2) ==> e1 == e2
  {
  }

  /** One call of `formAssistant.generateForm(sessionId, fields)`. */
  datatype AssistantCall = AssistantCall(sessionId: string, fields: seq<FormField>)

  /** The reply of `fillForm` and the assistant calls it made, in order. */
  datatype FillOutcome = FillOutcome(response: FormResponse, calls: seq<AssistantCall>)

  /** The guard of `fillForm`: there is a request, it has a field list, and the list is not empty. */
  predicate HasFields(formData: Option<FormData>)
  {
    formData.Some? && formData.value.fields.Some? && |formData.value.fields.value| > 0
  }

  /** `fillForm(sessionId, formData)` with the assistant's answer given by `assistant`. */
  function FillForm(sessionId: string, formData: Option<FormData>,
                    assistant: (string, seq<FormField>) -> map<string, string>): (r: FillOutcome)
    ensures !HasFields(formData) ==> r.response == Error(NoFieldsMessage) && r.calls == []
    ensures HasFields(formData) ==>
      && r.calls == [AssistantCall(sessionId, formData.value.fields.value)]
      && r.response == Succeeded(assistant(sessionId, formData.value.fields.value))
  {
    if formData.None? || formData.value.fields.None? || |formData.value.fields.value| == 0 then
      FillOutcome(Error(NoFieldsMessage), [])
    else
      var fields := formData.value.fields.value;
      FillOutcome(Succeeded(assistant(sessionId, fields)), [AssistantCall(sessionId, fields)])
  }

  /**
   * The reply succeeds exactly when the request carried a non-empty field list;
   * on success its values are exactly the assistant's map, and on failure it
   * carries the fixed message and no values.
   */
  lemma FillFormSucceedsIffFields(sessionId: string, formData: Option<FormData>,
                                  assistant: (string, seq<FormField>) -> map<string, string>)
    ensures FillForm(sessionId, formData, assistant).response.success <==> HasFields(formData)
    ensures |FillForm(sessionId, formData, assistant).calls| <= 1
    ensures FillForm(sessionId, formData, assistant).response.success ==>
      FillForm(sessionId, formData, assistant).response.filledValues ==
        Some(assistant(sessionId, formData.value.fields.value))
    ensures !FillForm(sessionId, formData, assistant).response.success ==>
      && FillForm(sessionId, formData, assistant).response.message == Some(NoFieldsMessage)
      && FillForm(sessionId, formData, assistant).response.filledValues.None?
      && FillForm(sessionId, formData, assistant).calls == []
  {
  }

  /** Null request, null list and empty list are all refused the same way. */
  lemma FillFormRefusals(sessionId: string, url: Option<string>, title: Option<string>,
                         assistant: (string, seq<FormField>) -> map<string, string>)
    ensures FillForm(sessionId, None, assistant) == FillOutcome(Error(NoFieldsMessage), [])
    ensures FillForm(sessionId, Some(FormData(url, title, None)), assistant) == FillOutcome(Error(NoFieldsMessage), [])
    ensures FillForm(sessionId, Some(FormData(url, title, Some([]))), assistant) == FillOutcome(Error(NoFieldsMessage), [])
  {
  }
}
