/** The question handlers over an abstract two-collection document store:
    `addQuestionsToSession` appends freshly created questions to a session and
    `deleteQuestionById` detaches a question from its session and removes it.
    The store's id generator is a supply of fresh ids; store failures are not
    modelled, so each handler is all-or-nothing. */
module QuestionController {
  import opened Js

  type SessionId = string
  type QuestionId = string

  /** A session document; its `questions` are references in insertion order.
      Timestamps are not modelled. */
  datatype Session = Session(user: string, role: string, experience: string, topicsToFocus: string,
                             description: Option<string>, questions: seq<QuestionId>)

  /** A question document. `question` and `answer` are the request's values
      after the schema's `String` cast: a string, or null/undefined when the
      request left them unset. */
  datatype Question = Question(session: SessionId, question: JsValue, answer: JsValue, note: Option<string>)

  datatype Store = Store(sessions: map<SessionId, Session>, questions: map<QuestionId, Question>)

  /** Every id a session lists names a stored question that points back at
      that session. */
  ghost predicate Consistent(st: Store) {
    forall sid, q :: sid in st.sessions && q in st.sessions[sid].questions ==>
      q in st.questions && st.questions[q].session == sid
  }

  predicate Distinct(ids: seq<QuestionId>) {
    forall i, j :: 0 <= i < j < |ids| ==> ids[i] != ids[j]
  }

  /** Ids the store may hand out: pairwise distinct and not yet used. */
  predicate FreshIds(st: Store, supply: seq<QuestionId>) {
    Distinct(supply) && forall i :: 0 <= i < |supply| ==> supply[i] !in st.questions
  }

  // ---------------------------------------------------------------------------
  // addQuestionsToSession

  datatype AddOutcome =
    | InvalidInput
    | SessionNotFound
    | ServerError
    | Created(ids: seq<QuestionId>, records: seq<Question>)
  {
    function Status(): int {
      match this
      case InvalidInput => 400
      case SessionNotFound => 404
      case ServerError => 500
      case Created(_, _) => 201
    }

    function Message(): string
      requires !Created?
    {
      match this
      case InvalidInput => "Invalid Input Data"
      case SessionNotFound => "Session not found"
      case ServerError => "Server Error "
    }
  }

  /** The schema's `String` cast of one field on insert: a string is kept, a
      number or boolean is stored as its text, null and undefined leave the
      field unset, and an array or object cannot be cast (None). */
  function CastString(v: JsValue): (r: Option<JsValue>)
    ensures r.None? <==> v.JsArray? || v.JsObject?
    ensures r.Some? ==> r.value.JsString? || IsNullish(r.value)
    ensures r.Some? && !IsNullish(v) ==> r.value == JsString(ToString(v))
    ensures IsNullish(v) ==> r == Some(v)
  {
    if v.JsArray? || v.JsObject? then None
    else if IsNullish(v) then Some(v)
    else Some(JsString(ToString(v)))
  }

  /** A string field is stored exactly as sent, and casting is idempotent. */
  lemma CastKeepsStrings(v: JsValue)
    ensures v.JsString? ==> CastString(v) == Some(v)
    ensures CastString(v).Some? ==> CastString(CastString(v).value) == CastString(v)
  {
  }

  /** An item `insertMany` accepts: reading its fields does not throw and
      both cast. */
  predicate Insertable(item: JsValue) {
    && !IsNullish(item)
    && CastString(OptGet(item, "question")).Some?
    && CastString(OptGet(item, "answer")).Some?
  }

  /** The record `insertMany` stores for one request item: `q.question` and
      `q.answer`, cast, under the session's id. None when the item is null or
      undefined, because reading its fields throws, and when a field fails
      its cast. */
  function RecordOf(sid: SessionId, item: JsValue): (r: Option<Question>)
    ensures r.None? <==> !Insertable(item)
    ensures r.Some? ==> && r.value.session == sid && r.value.note.None?
                        && Some(r.value.question) == CastString(OptGet(item, "question"))
                        && Some(r.value.answer) == CastString(OptGet(item, "answer"))
    ensures r.Some? && OptGet(item, "question").JsString? ==> r.value.question == OptGet(item, "question")
    ensures r.Some? && OptGet(item, "answer").JsString? ==> r.value.answer == OptGet(item, "answer")
  {
    match (Get(item, "question"), Get(item, "answer"))
    case (Some(q), Some(a)) =>
      if CastString(q).Some? && CastString(a).Some? then Some(Question(sid, CastString(q).value, CastString(a).value, None))
      else None
    case _ => None
  }

  /** The records for every item in order, or None when any item throws or
      fails its cast, in which case `insertMany` stores nothing. */
  function RecordsOf(sid: SessionId, items: seq<JsValue>): (r: Option<seq<Question>>)
    ensures r.None? <==> exists i :: 0 <= i < |items| && !Insertable(items[i])
    ensures r.Some? ==> |r.value| == |items|
    ensures r.Some? ==> forall i :: 0 <= i < |items| ==> Some(r.value[i]) == RecordOf(sid, items[i])
    ensures r.Some? ==> forall i :: 0 <= i < |items| ==> r.value[i].session == sid
  {
    if items == [] then Some([])
    else
      match (RecordOf(sid, items[0]), RecordsOf(sid, items[1..]))
      case (Some(q), Some(qs)) =>
        assert forall i :: 1 <= i < |items| ==> items[i] == items[1..][i - 1];
        Some([q] + qs)
      case (None, _) => None
      case (_, None) =>
        var i :| 0 <= i < |items[1..]| && !Insertable(items[1..][i]);
        assert !Insertable(items[i + 1]);
        None
  }

  /** Record `i` carries item `i`'s question and answer after the cast, under
      the session's id. */
  lemma RecordsCarryFields(sid: SessionId, items: seq<JsValue>, i: int)
    requires RecordsOf(sid, items).Some? && 0 <= i < |items|
    ensures var rec := RecordsOf(sid, items).value[i];
            && rec.session == sid
            && Some(rec.question) == CastString(OptGet(items[i], "question"))
            && Some(rec.answer) == CastString(OptGet(items[i], "answer"))
  {
    assert Some(RecordsOf(sid, items).value[i]) == RecordOf(sid, items[i]);
  }

  /** `m` with `ids[i]` bound to `recs[i]` for every `i`. */
  function InsertAll(m: map<QuestionId, Question>, ids: seq<QuestionId>, recs: seq<Question>): (r: map<QuestionId, Question>)
    requires |ids| == |recs| && Distinct(ids)
    ensures r.Keys == m.Keys + (set i | 0 <= i < |ids| :: ids[i])
    ensures forall i :: 0 <= i < |ids| ==> r[ids[i]] == recs[i]
    ensures forall q :: q in m && q !in ids ==> r[q] == m[q]
    decreases |ids|
  {
    if ids == [] then m
    else
      var r := InsertAll(m[ids[0] := recs[0]], ids[1..], recs[1..]);
      assert forall i :: 1 <= i < |ids| ==> ids[i] == ids[1..][i - 1];
      assert (set i | 0 <= i < |ids| :: ids[i]) == {ids[0]} + (set i | 0 <= i < |ids[1..]| :: ids[1..][i]);
      r
  }

  /** `after` is `st` with questions `ids` created from `records` and
      appended, in order, to session `sid`'s list; nothing else changed. */
  predicate Appended(st: Store, after: Store, sid: SessionId, ids: seq<QuestionId>, records: seq<Question>)
    requires sid in st.sessions && |ids| == |records|
  {
    && after.questions.Keys == st.questions.Keys + (set i | 0 <= i < |ids| :: ids[i])
    && (forall i :: 0 <= i < |ids| ==> ids[i] in after.questions && after.questions[ids[i]] == records[i])
    && (forall q :: q in st.questions ==> q in after.questions && after.questions[q] == st.questions[q])
    && after.sessions.Keys == st.sessions.Keys
    && after.sessions[sid] == st.sessions[sid].(questions := st.sessions[sid].questions + ids)
    && (forall s :: s in st.sessions && s != sid ==> after.sessions[s] == st.sessions[s])
  }

  /** The two writes of a successful add: `insertMany`, then the push onto the
      session's list and its save. */
  function Append(st: Store, sid: SessionId, ids: seq<QuestionId>, records: seq<Question>): (after: Store)
    requires sid in st.sessions && |ids| == |records| && Distinct(ids)
    requires forall i :: 0 <= i < |ids| ==> ids[i] !in st.questions
    ensures Appended(st, after, sid, ids, records)
  {
    var session := st.sessions[sid];
    Store(st.sessions[sid := session.(questions := session.questions + ids)],
          InsertAll(st.questions, ids, records))
  }

  /** POST /api/questions/add. A string session id is looked up as given; a
      truthy id of another type cannot be cast to a document id and fails
      with 500, as does an item whose fields cannot be read or cast. */
  function AddQuestionsToSession(st: Store, sessionId: JsValue, questions: JsValue, supply: seq<QuestionId>)
    : (r: (AddOutcome, Store))
    requires FreshIds(st, supply)
    requires questions.JsArray? ==> |questions.items| <= |supply|
    ensures !r.0.Created? ==> r.1 == st
    ensures r.0.InvalidInput? <==> !Truthy(sessionId) || !Truthy(questions) || !questions.JsArray?
    ensures r.0.SessionNotFound? <==>
              Truthy(sessionId) && questions.JsArray? && sessionId.JsString? && sessionId.s !in st.sessions
    ensures r.0.Created? <==>
              && Truthy(sessionId) && questions.JsArray? && sessionId.JsString? && sessionId.s in st.sessions
              && forall i :: 0 <= i < |questions.items| ==> Insertable(questions.items[i])
    ensures r.0.Created? ==>
              && sessionId.JsString? && sessionId.s in st.sessions && questions.JsArray?
              && r.0.ids == supply[..|questions.items|]
              && RecordsOf(sessionId.s, questions.items) == Some(r.0.records)
              && |r.0.ids| == |r.0.records|
              && Appended(st, r.1, sessionId.s, r.0.ids, r.0.records)
  {
    if !Truthy(sessionId) || !Truthy(questions) || !questions.JsArray? then (InvalidInput, st)
    else if !sessionId.JsString? then (ServerError, st)
    else if sessionId.s !in st.sessions then (SessionNotFound, st)
    else
      var sid := sessionId.s;
      var items := questions.items;
      match RecordsOf(sid, items)
      case None => (ServerError, st)
      case Some(records) =>
        var ids := supply[..|items|];
        (Created(ids, records), Append(st, sid, ids, records))
  }

  // ---------------------------------------------------------------------------
  // deleteQuestionById

  datatype DeleteOutcome = QuestionNotFound | Deleted {
    function Status(): int {
      if QuestionNotFound? then 404 else 200
    }

    function Message(): string {
      if QuestionNotFound? then "Question not found" else "Question deleted successfully"
    }
  }

  /** The `$pull` update: every occurrence of `x` goes, the rest keep their order. */
  function RemoveAll(xs: seq<QuestionId>, x: QuestionId): (r: seq<QuestionId>)
    ensures x !in r
    ensures forall y :: y in r <==> y in xs && y != x
    ensures forall y :: y != x ==> multiset(r)[y] == multiset(xs)[y]
    ensures |r| == |xs| - multiset(xs)[x]
  {
    if xs == [] then []
    else
      var rest := RemoveAll(xs[1..], x);
      assert xs == [xs[0]] + xs[1..];
      assert multiset(xs) == multiset{xs[0]} + multiset(xs[1..]);
      if xs[0] == x then rest else [xs[0]] + rest
  }

  /** DELETE /api/questions/:id. The owning session, if it still exists,
      loses every occurrence of the id; then the question itself goes. */
  function DeleteQuestionById(st: Store, id: QuestionId): (r: (DeleteOutcome, Store))
    ensures r.0.QuestionNotFound? <==> id !in st.questions
    ensures r.0.QuestionNotFound? ==> r.1 == st
    ensures r.0.Deleted? ==>
              && r.1.questions.Keys == st.questions.Keys - {id}
              && (forall q :: q in r.1.questions ==> r.1.questions[q] == st.questions[q])
              && r.1.sessions.Keys == st.sessions.Keys
              && (forall s :: s in st.sessions && s != st.questions[id].session ==>
                    r.1.sessions[s] == st.sessions[s])
              && (forall s :: s in st.sessions && s == st.questions[id].session ==>
                    r.1.sessions[s] == st.sessions[s].(questions := RemoveAll(st.sessions[s].questions, id)))
  {
    if id !in st.questions then (QuestionNotFound, st)
    else
      var owner := st.questions[id].session;
      var sessions :=
        if owner in st.sessions
        then st.sessions[owner := st.sessions[owner].(questions := RemoveAll(st.sessions[owner].questions, id))]
        else st.sessions;
      (Deleted, Store(sessions, st.questions - {id}))
  }

  // ---------------------------------------------------------------------------
  // Properties

  /** Removal distributes over concatenation, so relative order is kept. */
  lemma {:induction false} RemoveAllConcat(a: seq<QuestionId>, b: seq<QuestionId>, x: QuestionId)
    ensures RemoveAll(a + b, x) == RemoveAll(a, x) + RemoveAll(b, x)
  {
    if a == [] {
      assert a + b == b;
    } else {
      assert (a + b)[0] == a[0];
      assert (a + b)[1..] == a[1..] + b;
      RemoveAllConcat(a[1..], b, x);
    }
  }

  /** Pulling an id that is not listed changes nothing. */
  lemma {:induction false} RemoveAllAbsent(xs: seq<QuestionId>, x: QuestionId)
    requires x !in xs
    ensures RemoveAll(xs, x) == xs
  {
    if xs != [] {
      assert xs[0] != x;
      RemoveAllAbsent(xs[1..], x);
      assert xs == [xs[0]] + xs[1..];
    }
  }

  /** Removing an id that occurs once, at index k, leaves the list without that slot. */
  lemma {:induction false} RemoveAllOnce(xs: seq<QuestionId>, k: int)
    requires 0 <= k < |xs| && Distinct(xs)
    ensures RemoveAll(xs, xs[k]) == xs[..k] + xs[k + 1..]
    decreases k
  {
    var x, tail := xs[k], xs[1..];
    assert Distinct(tail) by {
      forall i, j | 0 <= i < j < |tail| ensures tail[i] != tail[j] { assert tail[i] == xs[i + 1] && tail[j] == xs[j + 1]; }
    }
    if k == 0 {
      assert x !in tail by {
        forall j | 0 <= j < |tail| ensures tail[j] != x { assert tail[j] == xs[j + 1]; }
      }
      RemoveAllAbsent(tail, x);
    } else {
      assert tail[k - 1] == x;
      RemoveAllOnce(tail, k - 1);
      assert xs[0] != x;
      assert RemoveAll(xs, x) == [xs[0]] + RemoveAll(tail, x);
      DropSlotOfTail(xs, k);
    }
  }

  /** Dropping slot k > 0 keeps the head and drops slot k - 1 of the tail. */
  lemma DropSlotOfTail<T>(xs: seq<T>, k: int)
    requires 0 < k < |xs|
    ensures xs[..k] + xs[k + 1..] == [xs[0]] + (xs[1..][..k - 1] + xs[1..][k..])
  {
    assert xs[..k] == [xs[0]] + xs[1..][..k - 1];
    assert xs[k + 1..] == xs[1..][k..];
  }

  /** Appending records that all point at the session they are appended to
      keeps the store consistent. */
  lemma AppendedPreservesConsistency(st: Store, after: Store, sid: SessionId, ids: seq<QuestionId>, records: seq<Question>)
    requires Consistent(st) && sid in st.sessions && |ids| == |records|
    requires Appended(st, after, sid, ids, records)
    requires forall i :: 0 <= i < |records| ==> records[i].session == sid
    ensures Consistent(after)
  {
    forall s, q | s in after.sessions && q in after.sessions[s].questions
      ensures q in after.questions && after.questions[q].session == s
    {
      if s == sid && q in ids {
        var i :| 0 <= i < |ids| && ids[i] == q;
        assert after.questions[ids[i]] == records[i];
      } else {
        assert q in st.sessions[s].questions;
      }
    }
  }

  /** Adding questions keeps every session's list consistent with the
      question records, given supply ids. */
  lemma AddPreservesConsistency(st: Store, sessionId: JsValue, questions: JsValue, supply: seq<QuestionId>)
    requires Consistent(st) && FreshIds(st, supply)
    requires questions.JsArray? ==> |questions.items| <= |supply|
    ensures Consistent(AddQuestionsToSession(st, sessionId, questions, supply).1)
  {
    var r := AddQuestionsToSession(st, sessionId, questions, supply);
    if r.0.Created? {
      AppendedPreservesConsistency(st, r.1, sessionId.s, r.0.ids, r.0.records);
    }
  }

  /** Deleting a question keeps every session's list consistent: the only
      list that named the question is its owner's, and that list loses it. */
  lemma DeletePreservesConsistency(st: Store, id: QuestionId)
    requires Consistent(st)
    ensures Consistent(DeleteQuestionById(st, id).1)
  {
    var r := DeleteQuestionById(st, id);
    if r.0.Deleted? {
      RemovedPreservesConsistency(st, r.1, id);
    }
  }

  /** Dropping a question and pulling its id from its owner's list keeps the
      store consistent: by consistency no other session lists it. */
  lemma RemovedPreservesConsistency(st: Store, after: Store, id: QuestionId)
    requires Consistent(st) && id in st.questions
    requires after.questions.Keys == st.questions.Keys - {id}
    requires forall q :: q in after.questions ==> after.questions[q] == st.questions[q]
    requires after.sessions.Keys == st.sessions.Keys
    requires forall s :: s in st.sessions && s != st.questions[id].session ==> after.sessions[s] == st.sessions[s]
    requires forall s :: s in st.sessions && s == st.questions[id].session ==>
               after.sessions[s] == st.sessions[s].(questions := RemoveAll(st.sessions[s].questions, id))
    ensures Consistent(after)
  {
    var owner := st.questions[id].session;
    forall s, q | s in after.sessions && q in after.sessions[s].questions
      ensures q in after.questions && after.questions[q].session == s
    {
      if s == owner {
        assert q in st.sessions[s].questions && q != id;
      } else {
        assert q in st.sessions[s].questions;
        assert q != id;
      }
    }
  }

  /** A second delete of the same id finds nothing and changes nothing. */
  lemma DeleteTwiceNotFound(st: Store, id: QuestionId)
    requires id in st.questions
    ensures DeleteQuestionById(DeleteQuestionById(st, id).1, id).0.Status() == 404
    ensures DeleteQuestionById(DeleteQuestionById(st, id).1, id).1 == DeleteQuestionById(st, id).1
  {
  }

  /** Pulling one of a batch of new distinct ids from an older list followed
      by the batch leaves the older list and the rest of the batch. */
  lemma RemoveNewId(before: seq<QuestionId>, ids: seq<QuestionId>, k: int)
    requires 0 <= k < |ids| && Distinct(ids) && ids[k] !in before
    ensures RemoveAll(before + ids, ids[k]) == before + ids[..k] + ids[k + 1..]
  {
    RemoveAllConcat(before, ids, ids[k]);
    RemoveAllAbsent(before, ids[k]);
    RemoveAllOnce(ids, k);
  }

  /** A well-formed add to an existing session succeeds, appends exactly the
      first |items| supplied ids to that session, and tags each new question
      with the session. */
  lemma AddToExistingSession(st: Store, sid: SessionId, items: seq<JsValue>, supply: seq<QuestionId>)
    requires FreshIds(st, supply) && |items| <= |supply|
    requires sid in st.sessions && sid != ""
    requires forall i :: 0 <= i < |items| ==> Insertable(items[i])
    ensures var added := AddQuestionsToSession(st, JsString(sid), JsArray(items), supply);
            && added.0.Status() == 201
            && sid in added.1.sessions
            && added.1.sessions[sid].questions == st.sessions[sid].questions + supply[..|items|]
            && forall i :: 0 <= i < |items| ==>
                 supply[i] in added.1.questions && added.1.questions[supply[i]].session == sid
  {
    var added := AddQuestionsToSession(st, JsString(sid), JsArray(items), supply);
    assert added.0.Created?;
    forall i | 0 <= i < |items|
      ensures supply[i] in added.1.questions && added.1.questions[supply[i]].session == sid
    {
      assert added.0.ids[i] == supply[i];
      assert added.0.records[i].session == sid;
    }
  }

  /** Adding questions and then deleting the k-th new one leaves the session
      with its earlier list followed by the other new ids, and the deleted id
      no longer resolves. */
  lemma AddThenDelete(st: Store, sid: SessionId, items: seq<JsValue>, supply: seq<QuestionId>, k: int)
    requires Consistent(st) && FreshIds(st, supply) && |items| <= |supply|
    requires sid in st.sessions && sid != ""
    requires forall i :: 0 <= i < |items| ==> Insertable(items[i])
    requires 0 <= k < |items|
    ensures var added := AddQuestionsToSession(st, JsString(sid), JsArray(items), supply);
            var deleted := DeleteQuestionById(added.1, supply[k]);
            && added.0.Status() == 201
            && deleted.0.Status() == 200
            && deleted.1.sessions[sid].questions
               == st.sessions[sid].questions + supply[..k] + supply[k + 1..|items|]
            && supply[k] !in deleted.1.questions
  {
    var before := st.sessions[sid].questions;
    var ids := supply[..|items|];
    assert forall q :: q in before ==> q in st.questions;
    assert ids[k] == supply[k];
    assert Distinct(ids);
    RemoveNewId(before, ids, k);
    assert ids[..k] == supply[..k];
    assert ids[k + 1..] == supply[k + 1..|items|];
    AddToExistingSession(st, sid, items, supply);
  }
}
