/** The form that starts a new interview session: field edits, the
    required-field check, the handler that asks the model for seven
    questions, creates the session with them and opens its page, and the
    events that run that handler. How the two server calls answer is a
    parameter. */
module CreateSessionForm {
  import opened Js
  import opened Http
  import ApiPaths
  import AiController
  import InterviewPrep
  import Routes

  const RequiredFieldsMessage: string := "Please fill all required fields!"
  const GenericFailureMessage: string := "Something went wrong. Please try again."
  const InterviewPrepPrefix: string := "/interview-prep/"

  /** The form's text inputs; the description is the only optional one. */
  datatype FieldName = Role | Experience | TopicsToFocus | Description

  datatype FormData = FormData(role: string, experience: string, topicsToFocus: string, description: string)

  /** The empty form of the first render. */
  function InitialData(): FormData {
    FormData("", "", "", "")
  }

  function Value(d: FormData, k: FieldName): string {
    match k
    case Role => d.role
    case Experience => d.experience
    case TopicsToFocus => d.topicsToFocus
    case Description => d.description
  }

  /** An input's change: field `k` takes `v` and the other three keep theirs. */
  function HandleChange(d: FormData, k: FieldName, v: string): (r: FormData)
    ensures Value(r, k) == v
    ensures forall j :: j != k ==> Value(r, j) == Value(d, j)
  {
    match k
    case Role => d.(role := v)
    case Experience => d.(experience := v)
    case TopicsToFocus => d.(topicsToFocus := v)
    case Description => d.(description := v)
  }

  /** Editing the same field twice keeps only the second value. */
  lemma LastEditWins(d: FormData, k: FieldName, v1: string, v2: string)
    ensures HandleChange(HandleChange(d, k, v1), k, v2) == HandleChange(d, k, v2)
  {
  }

  /** The role, experience and topics are all non-empty. */
  predicate RequiredFilled(d: FormData) {
    d.role != "" && d.experience != "" && d.topicsToFocus != ""
  }

  /** The form's state; `error` starts as null and may become any message the server sent. */
  datatype FormState = FormState(data: FormData, isLoading: bool, error: JsValue)

  /** The request for the questions: the three required fields and seven questions. */
  function GenerateBody(d: FormData): (body: map<string, JsValue>)
    ensures Field(body, "role") == JsString(d.role)
    ensures Field(body, "experience") == JsString(d.experience)
    ensures Field(body, "topicsToFocus") == JsString(d.topicsToFocus)
    ensures Field(body, "numberOfQuestions") == JsNumber(7)
    ensures forall k :: k in body ==> k in {"role", "experience", "topicsToFocus", "numberOfQuestions"}
  {
    Serialized(map["role" := JsString(d.role), "experience" := JsString(d.experience),
                   "topicsToFocus" := JsString(d.topicsToFocus), "numberOfQuestions" := JsNumber(7)])
  }

  /** The create request: all four form fields and the generated questions. */
  function CreateBody(d: FormData, generated: JsValue): (body: map<string, JsValue>)
    ensures Field(body, "role") == JsString(d.role)
    ensures Field(body, "experience") == JsString(d.experience)
    ensures Field(body, "topicsToFocus") == JsString(d.topicsToFocus)
    ensures Field(body, "description") == JsString(d.description)
    ensures Field(body, "questions") == generated
    ensures forall k :: k in body ==> k in {"role", "experience", "topicsToFocus", "description", "questions"}
  {
    Serialized(map["role" := JsString(d.role), "experience" := JsString(d.experience),
                   "topicsToFocus" := JsString(d.topicsToFocus), "description" := JsString(d.description),
                   "questions" := generated])
  }

  /** `response.data?.session?._id`. */
  function CreatedId(data: JsValue): JsValue {
    OptGet(OptGet(data, "session"), "_id")
  }

  /** The catch block's message for a rejected call: the server's truthy
      `message`, otherwise the generic text. When the rejection carries a null
      or undefined body, reading its message throws and the error keeps its
      current value. */
  function CatchError(current: JsValue, response: Option<JsValue>): (r: JsValue)
    ensures r == current || r == JsString(GenericFailureMessage) || (response.Some? && r == OptGet(response.value, "message"))
    ensures response.None? ==> r == JsString(GenericFailureMessage)
    ensures response.Some? && IsNullish(response.value) ==> r == current
    ensures response.Some? && !IsNullish(response.value) ==>
              (Truthy(r) && r != JsString(GenericFailureMessage) ==> r == OptGet(response.value, "message"))
    ensures response.Some? && !IsNullish(response.value) && Truthy(OptGet(response.value, "message")) ==>
              r == OptGet(response.value, "message")
    ensures response.Some? && !IsNullish(response.value) && !Truthy(OptGet(response.value, "message")) ==>
              r == JsString(GenericFailureMessage)
  {
    match response
    case None => JsString(GenericFailureMessage)
    case Some(data) =>
      match Get(data, "message")
      case None => current
      case Some(msg) => if Truthy(msg) then msg else JsString(GenericFailureMessage)
  }

  /** What one run of the handler did: the state right before the first
      request (None when validation stopped it), the final state, the requests
      in order and the page it navigated to. */
  datatype HandlerRun = HandlerRun(pending: Option<FormState>, state: FormState, requests: seq<Request>, navigate: Option<string>)

  function HandleCreateSession(s: FormState, ai: Outcome, create: Outcome): (r: HandlerRun)
    // validation
    ensures !RequiredFilled(s.data) ==>
              r == HandlerRun(None, s.(error := JsString(RequiredFieldsMessage)), [], None)
    ensures RequiredFilled(s.data) ==>
              && r.pending == Some(s.(error := JsString(""), isLoading := true))
              && r.state.data == s.data && !r.state.isLoading
    // requests
    ensures |r.requests| >= 1 <==> RequiredFilled(s.data)
    ensures |r.requests| >= 1 ==> r.requests[0] == Request(POST, ApiPaths.AiGenerateQuestions, Some(GenerateBody(s.data)))
    ensures |r.requests| == 2 <==> RequiredFilled(s.data) && ai.Ok?
    ensures |r.requests| == 2 ==> r.requests[1] == Request(POST, ApiPaths.SessionCreate, Some(CreateBody(s.data, ai.data)))
    ensures |r.requests| <= 2
    // navigation
    ensures r.navigate.Some? <==> RequiredFilled(s.data) && ai.Ok? && create.Ok? && Truthy(CreatedId(create.data))
    ensures r.navigate.Some? ==> r.navigate.value == InterviewPrepPrefix + ToString(CreatedId(create.data))
    // error
    ensures RequiredFilled(s.data) && ai.Rejected? ==> r.state.error == CatchError(JsString(""), ai.response)
    ensures RequiredFilled(s.data) && ai.Ok? && create.Rejected? ==> r.state.error == CatchError(JsString(""), create.response)
    ensures RequiredFilled(s.data) && ai.Ok? && create.Ok? ==> r.state.error == JsString("")
  {
    if !RequiredFilled(s.data) then HandlerRun(None, s.(error := JsString(RequiredFieldsMessage)), [], None)
    else
      var pending := s.(error := JsString(""), isLoading := true);
      var generate := Request(POST, ApiPaths.AiGenerateQuestions, Some(GenerateBody(s.data)));
      match ai
      case Rejected(resp) =>
        HandlerRun(Some(pending), pending.(error := CatchError(pending.error, resp), isLoading := false), [generate], None)
      case Ok(generated) =>
        var creation := Request(POST, ApiPaths.SessionCreate, Some(CreateBody(s.data, generated)));
        match create
        case Rejected(resp) =>
          HandlerRun(Some(pending), pending.(error := CatchError(pending.error, resp), isLoading := false),
                    [generate, creation], None)
        case Ok(data) =>
          var nav := if Truthy(CreatedId(data)) then Some(InterviewPrepPrefix + ToString(CreatedId(data))) else None;
          HandlerRun(Some(pending), pending.(isLoading := false), [generate, creation], nav)
  }

  /** Every question request the form sends gets past the server's
      missing-fields check, so the server answers it from the model. */
  lemma SentRequestPassesGate(s: FormState, ai: Outcome, create: Outcome,
                                   generate: AiController.Prompt -> AiController.Generation,
                                   parse: string -> AiController.ParseResult)
    requires RequiredFilled(s.data)
    ensures var req := HandleCreateSession(s, ai, create).requests[0];
            && req.body.Some?
            && AiController.QuestionFieldsPresent(req.body.value)
            && !AiController.GenerateInterviewQuestions(req.body.value, generate, parse).MissingFields?
  {
  }

  /** A run of the handler leaves the form idle whatever the server does. */
  lemma RunNeverLeavesLoading(s: FormState, ai: Outcome, create: Outcome)
    requires !s.isLoading
    ensures !HandleCreateSession(s, ai, create).state.isLoading
  {
  }

  /** A created session with an ordinary string id opens its page, which
      fetches that session from the path the session routes hand to the
      by-id handler. */
  lemma CreatedSessionOpens(s: FormState, generated: JsValue, data: JsValue, sid: string)
    requires RequiredFilled(s.data)
    requires CreatedId(data) == JsString(sid)
    requires sid != "" && '/' !in sid && sid != "my-sessions"
    ensures HandleCreateSession(s, Ok(generated), Ok(data)).navigate == Some(InterviewPrepPrefix + sid)
    ensures InterviewPrep.MountRequests(sid) == [Request(GET, ApiPaths.SessionGetOne(sid), None)]
    ensures Routes.Segments(ApiPaths.SessionGetOne(sid)) == ["api", "sessions", sid]
    ensures Routes.Dispatch(Routes.SessionRoutes, GET, [sid]) == Some(Routes.ProtectedWithId(Routes.GetSessionById, sid))
  {
    Routes.SessionPathRoutes(sid);
  }

  /** Where a click inside the form lands: one of the four inputs, the
      Create Session button, or any other part of the form (a label, the
      error line, the gap between fields). */
  datatype ClickTarget = OnInput(field: FieldName) | OnCreateButton | OnFormBackground

  /** What reaches the form: a click, or Enter pressed in an input, which the
      browser turns into a click on the enabled submit button. */
  datatype FormEvent = Click(target: ClickTarget) | EnterIn(field: FieldName)

  /** The handler as the page wires it: it listens for clicks on the whole
      form, so every click inside it bubbles up and runs the handler. A
      disabled button dispatches no click, so only the button while loading,
      and Enter while loading, start nothing. */
  function OnFormClick(s: FormState, e: FormEvent, ai: Outcome, create: Outcome): (r: Option<HandlerRun>)
    ensures r.None? <==> s.isLoading && (e == Click(OnCreateButton) || e.EnterIn?)
    ensures r.Some? ==> r.value == HandleCreateSession(s, ai, create)
    ensures r.Some? && !RequiredFilled(s.data) ==> r.value.state.error == JsString(RequiredFieldsMessage)
    ensures r.Some? && RequiredFilled(s.data) ==> |r.value.requests| >= 1
  {
    match e
    case Click(OnCreateButton) => if s.isLoading then None else Some(HandleCreateSession(s, ai, create))
    case Click(_) => Some(HandleCreateSession(s, ai, create))
    case EnterIn(_) => if s.isLoading then None else Some(HandleCreateSession(s, ai, create))
  }

  /** As wired, clicking into an input of a filled form sends the question
      request, and it does so again while an earlier run is still loading. */
  lemma ClickIntoInputSendsRequest(s: FormState, k: FieldName, ai: Outcome, create: Outcome)
    requires RequiredFilled(s.data)
    ensures var r := OnFormClick(s, Click(OnInput(k)), ai, create);
            && r.Some?
            && r.value.requests[0] == Request(POST, ApiPaths.AiGenerateQuestions, Some(GenerateBody(s.data)))
  {
  }

  /** As wired, the first click into the empty form, on its first input,
      already shows the required-fields error. */
  lemma FirstClickShowsError(ai: Outcome, create: Outcome)
    ensures OnFormClick(FormState(InitialData(), false, JsNull), Click(OnInput(Role)), ai, create)
            == Some(HandlerRun(None, FormState(InitialData(), false, JsString(RequiredFieldsMessage)), [], None))
  {
  }

  /** The handler listening for the form's submit event, as the submit button
      and the comment above the form intend: only the enabled button, or
      Enter in an input while the button is enabled, runs it. */
  function OnFormSubmit(s: FormState, e: FormEvent, ai: Outcome, create: Outcome): (r: Option<HandlerRun>)
    ensures r.Some? <==> !s.isLoading && (e == Click(OnCreateButton) || e.EnterIn?)
    ensures r.Some? ==> r.value == HandleCreateSession(s, ai, create)
  {
    match e
    case Click(OnCreateButton) => if s.isLoading then None else Some(HandleCreateSession(s, ai, create))
    case Click(_) => None
    case EnterIn(_) => if s.isLoading then None else Some(HandleCreateSession(s, ai, create))
  }

  /** With the submit wiring, clicking into a field sends nothing and shows
      no error, nothing starts a second run while one is loading, and every
      run it does start is the one the click wiring would start. */
  lemma SubmitWiringOnlyOnSubmit(s: FormState, e: FormEvent, ai: Outcome, create: Outcome)
    ensures e.Click? && e.target != OnCreateButton ==> OnFormSubmit(s, e, ai, create).None?
    ensures s.isLoading ==> OnFormSubmit(s, e, ai, create).None?
    ensures OnFormSubmit(s, e, ai, create).Some? ==> OnFormClick(s, e, ai, create) == OnFormSubmit(s, e, ai, create)
  {
  }
}
