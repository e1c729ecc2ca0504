/** The interview page of one session: the per-card expansion map behind the
    Expand / Collapse buttons and each card's toggle, the placement of the
    Load More button, and the requests of the Load More, delete and refetch
    flows. The session data is the JSON value the server returned, so every
    read of it follows JavaScript's rules. */
module InterviewPrep {
  import opened Js
  import opened Http
  import ApiPaths
  import AiController
  import Routes

  /** The key of the card at position `idx`: its `_id` when truthy, otherwise
      its position, converted to a string as every object key is. None when
      reading `_id` throws because the card itself is null or undefined. */
  function CardKey(q: JsValue, idx: nat): (r: Option<string>)
    ensures r.None? <==> IsNullish(q)
    ensures !IsNullish(q) && Truthy(OptGet(q, "_id")) ==> r == Some(ToString(OptGet(q, "_id")))
    ensures !IsNullish(q) && !Truthy(OptGet(q, "_id")) ==> r == Some(NatToString(idx))
  {
    match Get(q, "_id")
    case None => None
    case Some(id) => Some(if Truthy(id) then ToString(id) else NatToString(idx))
  }

  /** Two cards without a truthy `_id` at different positions get different
      keys, so each toggles its own entry. */
  lemma PositionKeysDistinct(q1: JsValue, i: nat, q2: JsValue, j: nat)
    requires !IsNullish(q1) && !IsNullish(q2)
    requires !Truthy(OptGet(q1, "_id")) && !Truthy(OptGet(q2, "_id"))
    ensures CardKey(q1, i) == CardKey(q2, j) <==> i == j
  {
    NatToStringInjective(i, j);
  }

  /** The keys of the first `n` cards, in order; None when one of them throws. */
  function KeysUpTo(items: seq<JsValue>, n: nat): (r: Option<seq<string>>)
    requires n <= |items|
    ensures r.None? <==> exists i :: 0 <= i < n && IsNullish(items[i])
    ensures r.Some? ==> |r.value| == n && forall i :: 0 <= i < n ==> CardKey(items[i], i) == Some(r.value[i])
  {
    if n == 0 then Some([])
    else
      match KeysUpTo(items, n - 1)
      case None => None
      case Some(ks) =>
        match CardKey(items[n - 1], n - 1)
        case None => None
        case Some(k) => Some(ks + [k])
  }

  /** The expansion map: card key to the last value its toggle stored. */
  type Expanded = map<string, bool>

  /** The questions list as `sessionData?.questions` reads it. */
  function QuestionsOf(sessionData: JsValue): JsValue {
    OptGet(sessionData, "questions")
  }

  /** The Expand button. Every card's key maps to true and nothing else is in
      the map; with no session or no questions the map is empty. The handler
      throws, leaving the map as it was (None), when the questions value is
      not an array or one card is null. */
  function ExpandAll(sessionData: JsValue): (r: Option<Expanded>)
    ensures IsNullish(QuestionsOf(sessionData)) ==> r == Some(map[])
    ensures !IsNullish(QuestionsOf(sessionData)) && !QuestionsOf(sessionData).JsArray? ==> r.None?
    ensures QuestionsOf(sessionData).JsArray? ==>
      var items := QuestionsOf(sessionData).items;
      && (r.None? <==> exists i :: 0 <= i < |items| && IsNullish(items[i]))
      && (r.Some? ==> forall i :: 0 <= i < |items| ==>
            CardKey(items[i], i).Some? && IsExpanded(r.value, CardKey(items[i], i).value))
      && (r.Some? ==> forall k :: k in r.value ==>
            r.value[k] && exists i :: 0 <= i < |items| && CardKey(items[i], i) == Some(k))
  {
    var qs := QuestionsOf(sessionData);
    if IsNullish(qs) then Some(map[])
    else if !qs.JsArray? then None
    else
      match KeysUpTo(qs.items, |qs.items|)
      case None => None
      case Some(ks) => Some(map k | k in ks :: true)
  }

  /** The Collapse button. */
  function CollapseAll(): (r: Expanded)
    ensures forall k :: !IsExpanded(r, k)
  {
    map[]
  }

  /** How a card reads its entry, `!!expandedCards[key]`: an absent key
      (undefined) reads as collapsed, a present one as its stored value. */
  function IsExpanded(m: Expanded, key: string): (r: bool)
    ensures key !in m ==> !r
    ensures key in m ==> r == m[key]
  {
    key in m && m[key]
  }

  /** One card's `setExpanded(val)`: stores `val` under that card's key and
      keeps every other entry. */
  function SetExpanded(m: Expanded, key: string, val: bool): (r: Expanded)
    ensures IsExpanded(r, key) == val
    ensures forall k :: k != key ==> (k in r <==> k in m)
    ensures forall k :: k != key && k in m ==> r[k] == m[k]
  {
    m[key := val]
  }

  /** A card's toggle twice over restores how every card reads. */
  lemma ToggleTwiceRestores(m: Expanded, key: string)
    ensures var once := SetExpanded(m, key, !IsExpanded(m, key));
            var twice := SetExpanded(once, key, !IsExpanded(once, key));
            forall k :: IsExpanded(twice, k) == IsExpanded(m, k)
  {
  }

  /** After Expand every card reads expanded; after Collapse none does. */
  lemma ExpandThenCollapse(sessionData: JsValue, i: int)
    requires QuestionsOf(sessionData).JsArray?
    requires ExpandAll(sessionData).Some?
    requires 0 <= i < |QuestionsOf(sessionData).items|
    ensures var key := CardKey(QuestionsOf(sessionData).items[i], i);
            && key.Some?
            && IsExpanded(ExpandAll(sessionData).value, key.value)
            && !IsExpanded(CollapseAll(), key.value)
  {
  }

  /** The page never sets `isLoading`, so it stays at its initial value. */
  const IsLoading: bool := false

  /** Whether the Load More button follows the card at `index` of a list of
      `count` cards. */
  function ShowsLoadMore(count: nat, index: nat): (r: bool)
    ensures r <==> count >= 1 && index == count - 1
  {
    !IsLoading && count == index + 1
  }

  /** The positions of the rendered cards that the button follows. */
  function LoadMorePositions(count: nat): set<nat> {
    set index: nat | index < count && ShowsLoadMore(count, index)
  }

  /** Rendering the list shows the button exactly once under a non-empty
      list, under its last card, and not at all under an empty one. */
  lemma LoadMoreRenderedOnce(count: nat)
    ensures count == 0 ==> LoadMorePositions(count) == {}
    ensures count > 0 ==> LoadMorePositions(count) == {count - 1}
    ensures |LoadMorePositions(count)| == if count == 0 then 0 else 1
  {
    if count > 0 {
      assert count - 1 in LoadMorePositions(count);
    }
  }

  /** The body of the request for more questions: the session's role,
      experience and topics, and five questions. Fields the session lacks are
      undefined and dropped in transit. */
  function GenerateBody(sessionData: JsValue): (body: map<string, JsValue>)
    ensures Field(body, "role") == OptGet(sessionData, "role")
    ensures Field(body, "experience") == OptGet(sessionData, "experience")
    ensures Field(body, "topicsToFocus") == OptGet(sessionData, "topicsToFocus")
    ensures Field(body, "numberOfQuestions") == JsNumber(5)
    ensures forall k :: k in body ==> k in {"role", "experience", "topicsToFocus", "numberOfQuestions"}
  {
    Serialized(map["role" := OptGet(sessionData, "role"),
                   "experience" := OptGet(sessionData, "experience"),
                   "topicsToFocus" := OptGet(sessionData, "topicsToFocus"),
                   "numberOfQuestions" := JsNumber(5)])
  }

  /** The body that appends the generated questions to this page's session. */
  function AddBody(sessionId: string, generated: JsValue): (body: map<string, JsValue>)
    ensures Field(body, "sessionId") == JsString(sessionId)
    ensures Field(body, "questions") == generated
    ensures forall k :: k in body ==> k in {"sessionId", "questions"}
  {
    Serialized(map["sessionId" := JsString(sessionId), "questions" := generated])
  }

  /** The fetch of this page's session. */
  function FetchSession(sessionId: string): Request {
    Request(GET, ApiPaths.SessionGetOne(sessionId), None)
  }

  /** What one Load More click did: the requests in order and the update
      loader's final value. */
  datatype UploadRun = UploadRun(requests: seq<Request>, updateLoader: bool)

  /** Load More, given how the generation call and the append call answer.
      A rejection ends the flow; what the error branch then shows is not
      modelled (it calls a setter the page never declares). */
  function UploadMoreQuestions(sessionData: JsValue, sessionId: string, ai: Outcome, add: Outcome): (r: UploadRun)
    ensures 1 <= |r.requests| <= 3
    ensures r.requests[0] == Request(POST, ApiPaths.AiGenerateQuestions, Some(GenerateBody(sessionData)))
    ensures |r.requests| >= 2 <==> ai.Ok?
    ensures ai.Ok? ==> r.requests[1] == Request(POST, ApiPaths.QuestionAddToSession, Some(AddBody(sessionId, ai.data)))
    ensures |r.requests| == 3 <==> ai.Ok? && add.Ok? && Truthy(add.data)
    ensures |r.requests| == 3 ==> r.requests[2] == FetchSession(sessionId)
    ensures !r.updateLoader
  {
    var generate := Request(POST, ApiPaths.AiGenerateQuestions, Some(GenerateBody(sessionData)));
    match ai
    case Rejected(_) => UploadRun([generate], false)
    case Ok(generated) =>
      var append := Request(POST, ApiPaths.QuestionAddToSession, Some(AddBody(sessionId, generated)));
      if add.Ok? && Truthy(add.data) then UploadRun([generate, append, FetchSession(sessionId)], false)
      else UploadRun([generate, append], false)
  }

  /** The refetch's effect on the page: the session replaces the old data only
      when the response carries a truthy `session`. */
  function ApplyFetched(sessionData: JsValue, response: Outcome): (r: JsValue)
    ensures r != sessionData ==> response.Ok? && r == OptGet(response.data, "session") && Truthy(r)
    ensures response.Ok? && Truthy(OptGet(response.data, "session")) ==> r == OptGet(response.data, "session")
  {
    if response.Ok? && Truthy(OptGet(response.data, "session")) then OptGet(response.data, "session")
    else sessionData
  }

  /** The first render fetches the session when the route supplies an id. */
  function MountRequests(sessionId: string): (r: seq<Request>)
    ensures r != [] <==> sessionId != ""
    ensures r != [] ==> r == [FetchSession(sessionId)]
  {
    if sessionId != "" then [FetchSession(sessionId)] else []
  }

  /** A card's delete: the page builds the path inline from the card's `_id`
      and refetches the session after a success. */
  function DeleteQuestion(sessionId: string, id: JsValue, result: Outcome): (r: seq<Request>)
    ensures |r| >= 1 && r[0].verb == DELETE && r[0].body.None?
    ensures |r| == 2 <==> result.Ok?
    ensures |r| == 2 ==> r[1] == FetchSession(sessionId)
  {
    var del := Request(DELETE, "/api/questions/" + ToString(id), None);
    if result.Ok? then [del, FetchSession(sessionId)] else [del]
  }

  /** The inline delete path is the endpoint table's question path, and for a
      non-empty id without a slash the question routes hand it to the
      protected delete handler with that id. */
  lemma InlineDeletePath(sessionId: string, id: JsValue, result: Outcome)
    ensures DeleteQuestion(sessionId, id, result)[0].path == ApiPaths.QuestionDelete(ToString(id))
    ensures ToString(id) != "" && '/' !in ToString(id) ==>
      && Routes.Segments(DeleteQuestion(sessionId, id, result)[0].path) == ["api", "questions", ToString(id)]
      && Routes.Dispatch(Routes.QuestionRoutes, DELETE, [ToString(id)])
         == Some(Routes.ProtectedWithId(Routes.DeleteQuestionById, ToString(id)))
  {
    if ToString(id) != "" && '/' !in ToString(id) {
      Routes.QuestionPathRoutes(ToString(id));
    }
  }

  /** The server refuses the Load More request with its missing-fields error
      exactly when the session lacks a truthy role, experience or topics,
      whatever the model would have produced. */
  lemma LoadMoreGate(sessionData: JsValue, generate: AiController.Prompt -> AiController.Generation,
                     parse: string -> AiController.ParseResult)
    ensures AiController.GenerateInterviewQuestions(GenerateBody(sessionData), generate, parse).MissingFields?
        <==> !(Truthy(OptGet(sessionData, "role")) && Truthy(OptGet(sessionData, "experience"))
               && Truthy(OptGet(sessionData, "topicsToFocus")))
    ensures IsNullish(sessionData) ==>
      AiController.GenerateInterviewQuestions(GenerateBody(sessionData), generate, parse).MissingFields?
  {
  }
}
