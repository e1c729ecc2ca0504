# MockMate core, modelled in Dafny

MockMate is an interview-practice web app. A user creates a session for a role, an
experience level and some topics. The backend asks a language model for questions
and answers, stores them, and the client shows them as expandable cards. This
project models the parts of both sides that decide behaviour:

- `Js` (js.dfy): the JavaScript values the code handles. It covers truthiness,
  property reads that throw on `null`/`undefined`, optional chaining, `String()`
  conversion, and `JSON.stringify` dropping `undefined` fields.
- `Text` (text.dfy): JavaScript's whitespace set and `String.prototype.trim`.
- `AiController` (ai_controller.dfy): the two AI endpoints. It covers the
  required-field gate, fence stripping of the model's reply, and the 400/500/200
  outcomes. The model call and `JSON.parse` are parameters.
- `QuestionController` (question_controller.dfy): appending questions to a session
  and deleting a question. The database is a pair of maps; fresh ids are a parameter.
- `Routes` (routes.dfy): the session and question route tables and the router's
  first-match dispatch. It also connects the client's paths to the route each one
  reaches.
- `ApiPaths` (api_paths.dfy): the client's endpoint table.
- `Http` (http.dfy): request and outcome vocabulary.
- `LandingPage` (landing_page.dfy): the role carousel, the auth modal and dark mode.
- `InterviewPrep` (interview_prep.dfy): the expansion map, Load More placement, and
  the Load More, delete and refetch request flows.
- `QuestionCard` (question_card.dfy): the expand toggle and the answer-panel height.
- `CreateSessionForm` (create_session_form.dfy): field edits, validation, the
  create handler, and the events that run it. The page runs the handler on every
  click inside the form, not on submit (see Findings).
- `UserContext` (user_context.dfy): the signed-in user. It covers the mount-time
  profile fetch, sign-in and sign-out, with local storage as a string map.

Every network answer the client awaits is an `Outcome`, given as a parameter.
`Ok(data)` is a success. `Rejected(response)` is a failure, carrying the error
response's data when the server answered.

## Model

| member | source | states |
|---|---|---|
| Js.Get | backend/controllers/questionController.js:36-37 | a property read throws exactly on null/undefined; a present object field reads as its value, and a missing field or a non-object reads as undefined |
| Js.NatToString | frontend/mockmate/src/pages/InterviewPrep/InterviewPrep.jsx:155 | `String(n)` of a natural number: decimal digits with no leading zero whose decimal value is n |
| Js.NatToStringInjective | frontend/mockmate/src/pages/InterviewPrep/InterviewPrep.jsx:155 | distinct numbers print as distinct strings |
| Js.DecimalRoundTrip | frontend/mockmate/src/pages/InterviewPrep/InterviewPrep.jsx:155 | printing the value of a digit string without a leading zero gives the string back |
| Js.Serialized | frontend/mockmate/src/pages/InterviewPrep/InterviewPrep.jsx:100-105 | the body the server receives has exactly the non-undefined fields, each with its value |
| Text.Trim | backend/controllers/aiController.js:55 | the result has no leading or trailing JavaScript whitespace and is the piece of the input that starts where the leading whitespace run ends |
| Text.TrimRemovesOnlySpace | backend/controllers/aiController.js:55 | everything trimming removes, before and after the result, is whitespace |
| Text.TrimNoOuterSpace | backend/controllers/aiController.js:55 | trimming a string without outer whitespace returns it unchanged |
| AiController.StripLeadingFence | backend/controllers/aiController.js:53 | changes the text iff it starts with "```json"; then removes that opener and the maximal run of whitespace after it |
| AiController.StripTrailingFence | backend/controllers/aiController.js:54 | changes the text iff it ends with "```"; then exactly that fence is removed |
| AiController.Clean | backend/controllers/aiController.js:52-55 | the cleaned text has no outer whitespace and is no longer than the raw text |
| AiController.CleanIsInfix | backend/controllers/aiController.js:52-55 | the cleaned text is a contiguous piece of the raw text |
| AiController.CleanFencedPayload | backend/controllers/aiController.js:52-55 | a payload wrapped as "```json\n" + p + "\n```" comes back exactly, for any p without outer whitespace |
| AiController.CleanFencedArray | backend/controllers/aiController.js:52-55 | a JSON array reply wrapped in a ```json fence comes back as exactly the array text |
| AiController.OtherOpenersKept | backend/controllers/aiController.js:53 | an upper-case "```JSON" opener or a bare "```" opener is not stripped |
| AiController.FenceBeforeNewlineKept | backend/controllers/aiController.js:54 | a closing fence followed by a newline is not stripped, because the pattern is anchored at the very end |
| AiController.GenerateInterviewQuestions | backend/controllers/aiController.js:31-68 | 400 iff one of the four fields is falsy; 200 iff generation and parsing of the cleaned reply both succeed, with the parsed value as data; 500 otherwise |
| AiController.GenerateConceptExplanation | backend/controllers/aiController.js:78-112 | 400 iff the question is falsy; 200 with the parsed cleaned reply; otherwise 500 with the same failure message as the questions endpoint |
| AiController.GateSkipsGeneration | backend/controllers/aiController.js:35-37 | with a missing field the outcome does not depend on the model or the parser and is 400 "Missing Required Fields!" |
| AiController.FailuresAre500 | backend/controllers/aiController.js:62-67 | every failure of either endpoint is a 500 with "Failed to generate questions" |
| AiController.HandlersShareCleaning | backend/controllers/aiController.js:97-104 | given the same model reply, both endpoints produce the same outcome |
| QuestionController.CastString | backend/models/Question.js:12-13 | the schema's String cast: it fails iff the value is an array or object; null and undefined stay unset; any other value becomes its `String()` text |
| QuestionController.CastKeepsStrings | backend/models/Question.js:12-13 | a string is stored unchanged, and casting a cast value again changes nothing |
| QuestionController.RecordOf | backend/controllers/questionController.js:34-38 | an item gives a record iff it is not null or undefined and both its fields cast; the record belongs to the session, has no note, and holds the cast question and answer (a string field exactly as sent) |
| QuestionController.RecordsOf | backend/controllers/questionController.js:33-39 | one record per item, in order, each the record of the item at the same position and tied to the session; fails iff some item is null, undefined or has a field that does not cast |
| QuestionController.RecordsCarryFields | backend/controllers/questionController.js:33-39 | the i-th stored record holds the session id and the cast `question` and `answer` of the i-th item |
| QuestionController.AddQuestionsToSession | backend/controllers/questionController.js:18-50 | 400 iff the id or the list is falsy or the list is not an array; 404 iff a string id names no session; 201 with new records appended in order iff the id names a session and every item is neither null nor undefined and has fields that cast to String; 500 when a truthy id is not a string (the cast fails), an item is null or undefined, or an item's question or answer is an array or object; the store is unchanged on every error |
| QuestionController.RemoveAll | backend/controllers/questionController.js:67-70 | removes every occurrence of the id and keeps every other id with its multiplicity |
| QuestionController.RemoveAllConcat | backend/controllers/questionController.js:67-70 | pulling an id from a concatenation pulls it from each part, so the remaining ids keep their relative order |
| QuestionController.DeleteQuestionById | backend/controllers/questionController.js:57-73 | 404 iff the question is missing, with the store unchanged; otherwise the question is gone and its id is pulled from its own session only |
| QuestionController.AddPreservesConsistency | backend/controllers/questionController.js:33-43 | every question id a session lists exists and points back to that session, after an add as before |
| QuestionController.AppendedPreservesConsistency | backend/controllers/questionController.js:33-43 | appending fresh ids to one session, with records that point to it, keeps every listed id pointing back to its session |
| QuestionController.DeletePreservesConsistency | backend/controllers/questionController.js:66-72 | the same invariant survives a delete |
| QuestionController.RemovedPreservesConsistency | backend/controllers/questionController.js:66-72 | dropping a question and pulling its id from its owner's list keeps the invariant, because no other session lists it |
| QuestionController.DeleteTwiceNotFound | backend/controllers/questionController.js:61-64 | deleting the same question again answers 404 and changes nothing |
| QuestionController.AddToExistingSession | backend/controllers/questionController.js:26-45 | adding to an existing session answers 201 and appends the new ids, each pointing to that session |
| QuestionController.AddThenDelete | backend/controllers/questionController.js:18-73 | deleting one just-added question leaves the session's list as before plus the other new ids |
| Routes.Dispatch | backend/routes/sessionRoutes.js:13-16 | no match iff no route serves the request; otherwise the first route that serves it, with its middleware, handler and bound parameters |
| Routes.SessionDispatch | backend/routes/sessionRoutes.js:13-16 | the session table agrees with a case-by-case reference for every method and path |
| Routes.QuestionDispatch | backend/routes/questionRoutes.js:14-15 | the question table agrees with a case-by-case reference for every method and path |
| Routes.EveryRouteProtected | backend/routes/sessionRoutes.js:13-16 | every request either table accepts runs `protect` first |
| Routes.MySessionsRegisteredFirst | backend/routes/sessionRoutes.js:14-16 | GET "my-sessions" reaches the list handler, not the by-id handler; DELETE "my-sessions" reaches the delete handler |
| Routes.QuestionTableEdges | backend/routes/questionRoutes.js:14-17 | DELETE "add" reaches the delete handler; the pin and note paths and every GET are unrouted |
| Routes.SessionPathRoutes | frontend/mockmate/src/utils/apiPaths.js:24-25 | the client's one-session path reaches the by-id GET and DELETE handlers with that id, except "my-sessions" |
| Routes.QuestionPathRoutes | frontend/mockmate/src/utils/apiPaths.js:31 | the client's question path reaches the question delete handler with that id |
| ApiPaths.SessionGetOneIsDelete | frontend/mockmate/src/utils/apiPaths.js:24-25 | fetching and deleting a session use the same path |
| ApiPaths.MySessionsIdCollides | frontend/mockmate/src/utils/apiPaths.js:23-24 | the one-session path for id "my-sessions" equals the list path |
| ApiPaths.NotePathExtendsDeletePath | frontend/mockmate/src/utils/apiPaths.js:30-31 | the note path is the question path plus "/note" |
| ApiPaths.BuildersInjective | frontend/mockmate/src/utils/apiPaths.js:24-31 | different ids give different paths for every builder |
| ApiPaths.AllPathsUnderApi | frontend/mockmate/src/utils/apiPaths.js:10-32 | every relative path in the table starts with "/api/" |
| LandingPage.Next | frontend/mockmate/src/pages/LandingPage.jsx:55 | from a valid index the right arrow moves one role on, and from the last role to the first |
| LandingPage.Prev | frontend/mockmate/src/pages/LandingPage.jsx:56 | from a valid index the left arrow moves one role back, and from the first role to the last |
| LandingPage.NextPrevInverse | frontend/mockmate/src/pages/LandingPage.jsx:55-56 | next undoes prev and prev undoes next |
| LandingPage.WrapAround | frontend/mockmate/src/pages/LandingPage.jsx:55-56 | next from the last role gives the first; prev from the first gives the last |
| LandingPage.NextTimesAdd | frontend/mockmate/src/pages/LandingPage.jsx:55 | a presses then b presses equal a + b presses |
| LandingPage.NextTimesBelow | frontend/mockmate/src/pages/LandingPage.jsx:55 | below the last role, k presses move exactly k roles |
| LandingPage.FullCycle | frontend/mockmate/src/pages/LandingPage.jsx:55 | as many presses as there are roles return to the start |
| LandingPage.HandleCta | frontend/mockmate/src/pages/LandingPage.jsx:38-46 | a visitor gets the sign-up form in an open modal; a signed-in user goes to "/dashboard" with the state untouched |
| LandingPage.OpenLogIn | frontend/mockmate/src/pages/LandingPage.jsx:98-99 | the modal opens on the current form; the carousel and theme are kept |
| LandingPage.CloseModal | frontend/mockmate/src/pages/LandingPage.jsx:306-309 | closing shuts the modal and resets it to the login form, keeping the carousel and theme |
| LandingPage.ToggleDarkMode | frontend/mockmate/src/pages/LandingPage.jsx:49-52 | both the root's class and the flag flip; the modal, its form and the carousel index are kept |
| LandingPage.ToggleDarkTwice | frontend/mockmate/src/pages/LandingPage.jsx:49-52 | two presses restore the page exactly |
| LandingPage.ModalContent | frontend/mockmate/src/pages/LandingPage.jsx:313-318 | the login form shows iff the page is "login" and the sign-up form iff it is "signup"; never both |
| LandingPage.RunKeepsInvariant | frontend/mockmate/src/pages/LandingPage.jsx:27-56 | every sequence of events keeps the index valid and the flag equal to the root's class |
| InterviewPrep.CardKey | frontend/mockmate/src/pages/InterviewPrep/InterviewPrep.jsx:155 | a card's key is defined iff the card is not null or undefined; it is the `String()` text of a truthy `_id`, otherwise the decimal text of the card's position |
| InterviewPrep.PositionKeysDistinct | frontend/mockmate/src/pages/InterviewPrep/InterviewPrep.jsx:155 | cards without a truthy `_id` share a key iff they sit at the same position |
| InterviewPrep.IsExpanded | frontend/mockmate/src/pages/InterviewPrep/InterviewPrep.jsx:246 | a card with no entry reads as collapsed; one with an entry reads as its stored value |
| InterviewPrep.ExpandAll | frontend/mockmate/src/pages/InterviewPrep/InterviewPrep.jsx:152-159 | every card's key (its `_id`, else its position) maps to true and no other key is present; empty with no session; the handler throws on a non-array list or a null card |
| InterviewPrep.CollapseAll | frontend/mockmate/src/pages/InterviewPrep/InterviewPrep.jsx:161-164 | no card reads as expanded |
| InterviewPrep.SetExpanded | frontend/mockmate/src/pages/InterviewPrep/InterviewPrep.jsx:246-251 | the card reads as the stored value and every other entry is unchanged |
| InterviewPrep.ToggleTwiceRestores | frontend/mockmate/src/pages/InterviewPrep/InterviewPrep.jsx:246-251 | toggling a card twice restores how every card reads |
| InterviewPrep.ExpandThenCollapse | frontend/mockmate/src/pages/InterviewPrep/InterviewPrep.jsx:152-164 | after Expand each card reads expanded; after Collapse none does |
| InterviewPrep.ShowsLoadMore | frontend/mockmate/src/pages/InterviewPrep/InterviewPrep.jsx:257 | the button follows the card at a position iff that card is the last of a non-empty list |
| InterviewPrep.LoadMoreRenderedOnce | frontend/mockmate/src/pages/InterviewPrep/InterviewPrep.jsx:257 | over all rendered positions the button appears once, under the last card, for a non-empty list and never for an empty one |
| InterviewPrep.GenerateBody | frontend/mockmate/src/pages/InterviewPrep/InterviewPrep.jsx:100-105 | the request carries the session's role, experience and topics as read with optional chaining, and five questions; no other field |
| InterviewPrep.AddBody | frontend/mockmate/src/pages/InterviewPrep/InterviewPrep.jsx:111-117 | the append request carries the page's session id and the generated data unchanged; no other field |
| InterviewPrep.UploadMoreQuestions | frontend/mockmate/src/pages/InterviewPrep/InterviewPrep.jsx:93-135 | asks for 5 questions with the session's fields; appends the generated data unchanged under the page's id only after a successful generation; refetches only on a truthy append response; the loader ends off |
| InterviewPrep.ApplyFetched | frontend/mockmate/src/pages/InterviewPrep/InterviewPrep.jsx:46-59 | the page's data changes only to a truthy `session` from a successful fetch |
| InterviewPrep.MountRequests | frontend/mockmate/src/pages/InterviewPrep/InterviewPrep.jsx:168-174 | the page fetches its session on mount iff the route gives an id |
| InterviewPrep.DeleteQuestion | frontend/mockmate/src/pages/InterviewPrep/InterviewPrep.jsx:139-148 | one DELETE, followed by a refetch iff it succeeded |
| InterviewPrep.InlineDeletePath | frontend/mockmate/src/pages/InterviewPrep/InterviewPrep.jsx:141 | the inline path equals the table's question path and reaches the protected delete handler |
| InterviewPrep.LoadMoreGate | frontend/mockmate/src/pages/InterviewPrep/InterviewPrep.jsx:100-105 | the server's missing-fields answer comes exactly when the session lacks a truthy role, experience or topics, and always when there is no session |
| QuestionCard.ToggleExpand | frontend/mockmate/src/components/Cards/QuestionCard.jsx:41-43 | the toggle asks for the opposite state |
| QuestionCard.ToggleTwice | frontend/mockmate/src/components/Cards/QuestionCard.jsx:41-43 | two toggles restore the state |
| QuestionCard.AnswerHeight | frontend/mockmate/src/components/Cards/QuestionCard.jsx:30-38 | the height is positive iff expanded, and then the content height plus 10 |
| QuestionCard.ClickFlipsOnlyThisCard | frontend/mockmate/src/components/Cards/QuestionCard.jsx:41-43 | a click through the page's map flips this card and its panel, and no other card |
| CreateSessionForm.HandleChange | frontend/mockmate/src/pages/Home/CreateSessionForm.jsx:32-37 | the edited field takes the value and the other three keep theirs |
| CreateSessionForm.LastEditWins | frontend/mockmate/src/pages/Home/CreateSessionForm.jsx:32-37 | two edits of one field keep only the second |
| CreateSessionForm.GenerateBody | frontend/mockmate/src/pages/Home/CreateSessionForm.jsx:56-64 | the request carries the form's role, experience and topics and seven questions; no other field |
| CreateSessionForm.CreateBody | frontend/mockmate/src/pages/Home/CreateSessionForm.jsx:71-74 | the create request carries all four form fields and the generated questions; no other field |
| CreateSessionForm.CatchError | frontend/mockmate/src/pages/Home/CreateSessionForm.jsx:81-88 | the error is the server's truthy message; when the rejection has no response, or its data lacks a truthy message (`{}`, an HTML page), the generic text; it is unchanged when the rejection's data is null, because reading its message throws |
| CreateSessionForm.HandleCreateSession | frontend/mockmate/src/pages/Home/CreateSessionForm.jsx:40-92 | with a required field empty: the required-fields error and no request. Otherwise: error cleared and loading on before requesting 7 questions, then a create with all four fields and the generated questions, navigation to "/interview-prep/<id>" iff a truthy id came back, and loading off at the end |
| CreateSessionForm.RunNeverLeavesLoading | frontend/mockmate/src/pages/Home/CreateSessionForm.jsx:51-91 | a run that starts idle ends idle, whatever either server call answers |
| CreateSessionForm.OnFormClick | frontend/mockmate/src/pages/Home/CreateSessionForm.jsx:106-148 | every click inside the form runs the handler, except a click on the disabled button; Enter runs it while the button is enabled |
| CreateSessionForm.ClickIntoInputSendsRequest | frontend/mockmate/src/pages/Home/CreateSessionForm.jsx:106-137 | a click into any input of a filled form sends the question request, loading or not |
| CreateSessionForm.FirstClickShowsError | frontend/mockmate/src/pages/Home/CreateSessionForm.jsx:19-106 | the first click into the empty form's role input shows the required-fields error |
| CreateSessionForm.OnFormSubmit | frontend/mockmate/src/pages/Home/CreateSessionForm.jsx:141-148 | with the handler on the submit event, only the enabled button or Enter runs it |
| CreateSessionForm.SubmitWiringOnlyOnSubmit | frontend/mockmate/src/pages/Home/CreateSessionForm.jsx:141-148 | with the submit wiring a click into a field runs nothing, nothing runs while loading, and every run is one the click wiring also makes |
| CreateSessionForm.SentRequestPassesGate | frontend/mockmate/src/pages/Home/CreateSessionForm.jsx:46-64 | every question request the form sends passes the server's missing-fields check |
| CreateSessionForm.CreatedSessionOpens | frontend/mockmate/src/pages/Home/CreateSessionForm.jsx:77-79 | a created session's page fetches it from a path the by-id handler serves |
| UserContext.ClearUser | frontend/mockmate/src/context/userContext.jsx:72-75 | no user and no token; loading and the other stored keys stay |
| UserContext.UpdateUser | frontend/mockmate/src/context/userContext.jsx:60-64 | the user is the data. For non-null data, its token is stored as a string, only that key changes and loading ends. For null or undefined data, reading the token throws, so only the user is set |
| UserContext.Mount | frontend/mockmate/src/context/userContext.jsx:27-53 | does nothing with a user present; with no truthy token it only ends loading; otherwise one profile fetch, then the user on success or a sign-out on failure, and loading off |
| UserContext.UpdateThenClear | frontend/mockmate/src/context/userContext.jsx:60-75 | sign-in then sign-out leaves no token and every other key as it was |
| UserContext.FailedFetchIsNotRetried | frontend/mockmate/src/context/userContext.jsx:43-46 | after a failed profile fetch a new mount fetches nothing |
| UserContext.SignedInMountFetches | frontend/mockmate/src/context/userContext.jsx:31-40 | after a sign-in with a non-empty token, a new mount fetches the profile |

## Left out

- The language-model call, its API key and `JSON.parse` are foreign calls. They are
  parameters of the AI handlers: `generate` gives text or fails, and `parse` gives a
  value or fails. The prompt builders are represented only by the fields they receive.
- The two AI handlers duplicate the cleaning chain (backend/controllers/aiController.js:52-55
  and 97-100). The model defines it once as `AiController.Clean`.
- The database is two maps. Mongoose's id casting is reduced to this: a string id is
  looked up as is, and any other truthy id fails the cast, which is a 500.
- QuestionController.CastString: the String cast of `question` and `answer` is modelled
  for strings, numbers, booleans, null and undefined. An object is always a cast
  failure, although Mongoose casts an object carrying a string `_id` to that id, and
  an object with its own `toString` to that method's result. Neither case is modelled,
  because the value model has no methods. Schema validation beyond the cast does not exist
  for these fields and is not modelled.
- Store failures are not modelled. Timestamps, `insertMany` write errors and save
  errors are out, and so is the delete handler's 500 "Server Error" branch.
- New question ids come from a parameter of distinct unused ids.
- Express matching is modelled on pre-split paths. Case-insensitive matching,
  trailing slashes, percent-decoding and the automatic OPTIONS answer are left out.
- Numbers are integers, so `NaN`, fractions and the Infinity cases of `String()`
  are out.
- The session controller, the `protect` middleware and the login and sign-up forms
  are not part of this model, and neither are the `ROLES` data and the
  prompt builders. The number of carousel roles is a parameter `n > 0`.
- Commented-out code is left out. That covers the note and pin handlers and routes,
  and the concept-explanation drawer of the interview page.
- InterviewPrep.UploadMoreQuestions: what its error branch shows is not stated.
  That branch calls a `setError` the component never declares, so the model only
  records that the flow stops and the loader ends off.
- Presentation is out: animations, toasts, date formatting, summary and header
  cards, spinners and layouts. The answer panel's scroll height is a parameter.
- Asynchronous interleaving is out: each flow is modelled as if its awaited calls
  resolve in order with no other event in between.
- React batching is out: the moment at which queued state updates render is not
  modelled, only the values they set.
- `localStorage` is a string map, and the model does not cover other tabs or
  storage quota errors.

## Findings

| source | as written | input that shows it | evidently intended | confidence | as-written member | corrected member |
|---|---|---|---|---|---|---|
| frontend/mockmate/src/pages/Home/CreateSessionForm.jsx:106 | the create handler is the form's click listener, so every click inside the form runs it | a filled form and a click into the Description input: both requests go out and the page navigates away. An empty form and a first click into Target Role: "Please fill all required fields!" appears at once. While loading, a click into any input starts a second run | the handler on the form's submit event, run only by the enabled Create Session button (`type="submit"`) or by Enter in an input | high; not executed | CreateSessionForm.OnFormClick, CreateSessionForm.ClickIntoInputSendsRequest, CreateSessionForm.FirstClickShowsError | CreateSessionForm.OnFormSubmit, CreateSessionForm.SubmitWiringOnlyOnSubmit |
