/** The two backend route tables and the router's first-match dispatch over
    them. A request path is given as its segments ("/a/b" is ["a", "b"]);
    a literal segment matches itself and a `:name` segment matches any
    non-empty segment and binds it. */
module Routes {
  import opened Js
  import opened Http
  import ApiPaths

  datatype Segment = Literal(text: string) | Param(name: string)

  datatype Middleware = Protect

  datatype Handler =
    | CreateSession
    | GetMySessions
    | GetSessionById
    | DeleteSession
    | AddQuestionsToSession
    | DeleteQuestionById

  /** One registration: method, path pattern, middleware run in order, then the handler. */
  datatype Route = Route(verb: Method, pattern: seq<Segment>, middleware: seq<Middleware>, handler: Handler)

  /** What dispatch selected: the middleware chain, the handler and the bound parameters. */
  datatype Match = Match(middleware: seq<Middleware>, handler: Handler, params: map<string, string>)

  /** A route registered for `verb` serves requests with method `m`; the
      router serves HEAD with a GET route when no HEAD route is registered. */
  predicate HandlesMethod(verb: Method, m: Method) {
    verb == m || (m == HEAD && verb == GET)
  }

  predicate SegmentMatches(seg: Segment, s: string) {
    match seg
    case Literal(t) => s == t
    case Param(_) => s != ""
  }

  predicate PathMatches(pattern: seq<Segment>, path: seq<string>) {
    |pattern| == |path| && forall i :: 0 <= i < |path| ==> SegmentMatches(pattern[i], path[i])
  }

  /** The parameters a matching path binds, left to right. */
  function Bind(pattern: seq<Segment>, path: seq<string>): (params: map<string, string>)
    requires |pattern| == |path|
    ensures forall i :: 0 <= i < |pattern| && pattern[i].Param? ==> pattern[i].name in params
    ensures forall k :: k in params ==> exists i :: 0 <= i < |pattern| && pattern[i] == Param(k)
  {
    if pattern == [] then map[]
    else
      var rest := Bind(pattern[..|pattern| - 1], path[..|path| - 1]);
      var last := pattern[|pattern| - 1];
      assert forall i :: 0 <= i < |pattern| - 1 ==> pattern[..|pattern| - 1][i] == pattern[i];
      if last.Param? then rest[last.name := path[|path| - 1]] else rest
  }

  predicate Serves(route: Route, m: Method, path: seq<string>) {
    HandlesMethod(route.verb, m) && PathMatches(route.pattern, path)
  }

  function MatchOf(route: Route, path: seq<string>): Match
    requires |route.pattern| == |path|
  {
    Match(route.middleware, route.handler, Bind(route.pattern, path))
  }

  /** The position of the first route at or after `k` that serves the
      request, or `|table|` when none does. */
  function FirstServing(table: seq<Route>, m: Method, path: seq<string>, k: nat): (i: nat)
    requires k <= |table|
    ensures k <= i <= |table|
    ensures forall j :: k <= j < i ==> !Serves(table[j], m, path)
    ensures i < |table| ==> Serves(table[i], m, path)
    decreases |table| - k
  {
    if k == |table| then k
    else if Serves(table[k], m, path) then k
    else FirstServing(table, m, path, k + 1)
  }

  /** The first route, in registration order, that serves the request. */
  function Dispatch(table: seq<Route>, m: Method, path: seq<string>): (r: Option<Match>)
    ensures r.None? <==> forall i :: 0 <= i < |table| ==> !Serves(table[i], m, path)
    ensures r.Some? ==>
              exists i :: 0 <= i < |table| && Serves(table[i], m, path)
                          && (forall j :: 0 <= j < i ==> !Serves(table[j], m, path))
                          && r.value == MatchOf(table[i], path)
  {
    var i := FirstServing(table, m, path, 0);
    if i < |table| then Some(MatchOf(table[i], path)) else None
  }

  /** backend/routes/sessionRoutes.js, in registration order. */
  const SessionRoutes: seq<Route> := [
    Route(POST, [Literal("create")], [Protect], CreateSession),
    Route(GET, [Literal("my-sessions")], [Protect], GetMySessions),
    Route(GET, [Param("id")], [Protect], GetSessionById),
    Route(DELETE, [Param("id")], [Protect], DeleteSession)
  ]

  /** backend/routes/questionRoutes.js; the pin and note routes are disabled. */
  const QuestionRoutes: seq<Route> := [
    Route(POST, [Literal("add")], [Protect], AddQuestionsToSession),
    Route(DELETE, [Param("id")], [Protect], DeleteQuestionById)
  ]

  function Protected(h: Handler): Match {
    Match([Protect], h, map[])
  }

  function ProtectedWithId(h: Handler, id: string): Match {
    Match([Protect], h, map["id" := id])
  }

  /** What the session table does, case by case, written independently of the table. */
  function ExpectedSessionDispatch(m: Method, path: seq<string>): Option<Match> {
    if |path| != 1 || path[0] == "" then None
    else if m == POST then (if path[0] == "create" then Some(Protected(CreateSession)) else None)
    else if m == GET || m == HEAD then
      (if path[0] == "my-sessions" then Some(Protected(GetMySessions))
       else Some(ProtectedWithId(GetSessionById, path[0])))
    else if m == DELETE then Some(ProtectedWithId(DeleteSession, path[0]))
    else None
  }

  /** What the question table does, case by case. */
  function ExpectedQuestionDispatch(m: Method, path: seq<string>): Option<Match> {
    if |path| != 1 || path[0] == "" then None
    else if m == POST then (if path[0] == "add" then Some(Protected(AddQuestionsToSession)) else None)
    else if m == DELETE then Some(ProtectedWithId(DeleteQuestionById, path[0]))
    else None
  }

  /** A one-segment route serves exactly the one-segment paths its segment matches. */
  lemma OneSegmentRoute(route: Route, m: Method, path: seq<string>)
    requires |route.pattern| == 1
    ensures Serves(route, m, path) <==>
              HandlesMethod(route.verb, m) && |path| == 1 && SegmentMatches(route.pattern[0], path[0])
    ensures |path| == 1 ==>
              MatchOf(route, path) == Match(route.middleware, route.handler,
                                            if route.pattern[0].Param? then map[route.pattern[0].name := path[0]] else map[])
  {
    if |path| == 1 {
      assert route.pattern[..0] == [];
    }
  }

  /** The session table, unfolded into its four registrations in order. */
  lemma SessionDispatchUnfolded(m: Method, path: seq<string>)
    ensures var t := SessionRoutes;
            Dispatch(t, m, path)
            == if Serves(t[0], m, path) then Some(MatchOf(t[0], path))
               else if Serves(t[1], m, path) then Some(MatchOf(t[1], path))
               else if Serves(t[2], m, path) then Some(MatchOf(t[2], path))
               else if Serves(t[3], m, path) then Some(MatchOf(t[3], path))
               else None
  {
    var t := SessionRoutes;
    assert FirstServing(t, m, path, 4) == 4;
    assert FirstServing(t, m, path, 3) == if Serves(t[3], m, path) then 3 else 4;
    assert FirstServing(t, m, path, 2) == if Serves(t[2], m, path) then 2 else FirstServing(t, m, path, 3);
    assert FirstServing(t, m, path, 1) == if Serves(t[1], m, path) then 1 else FirstServing(t, m, path, 2);
    assert FirstServing(t, m, path, 0) == if Serves(t[0], m, path) then 0 else FirstServing(t, m, path, 1);
  }

  /** When each session route serves a request, and what it binds. */
  lemma SessionRouteConditions(m: Method, path: seq<string>)
    ensures var t := SessionRoutes;
            && (Serves(t[0], m, path) <==> m == POST && |path| == 1 && path[0] == "create")
            && (Serves(t[1], m, path) <==> (m == GET || m == HEAD) && |path| == 1 && path[0] == "my-sessions")
            && (Serves(t[2], m, path) <==> (m == GET || m == HEAD) && |path| == 1 && path[0] != "")
            && (Serves(t[3], m, path) <==> m == DELETE && |path| == 1 && path[0] != "")
            && (|path| == 1 ==>
                  && MatchOf(t[0], path) == Protected(CreateSession)
                  && MatchOf(t[1], path) == Protected(GetMySessions)
                  && MatchOf(t[2], path) == ProtectedWithId(GetSessionById, path[0])
                  && MatchOf(t[3], path) == ProtectedWithId(DeleteSession, path[0]))
  {
    var t := SessionRoutes;
    OneSegmentRoute(t[0], m, path);
    OneSegmentRoute(t[1], m, path);
    OneSegmentRoute(t[2], m, path);
    OneSegmentRoute(t[3], m, path);
  }

  /** The session table dispatches exactly as the case analysis says. */
  lemma SessionDispatch(m: Method, path: seq<string>)
    ensures Dispatch(SessionRoutes, m, path) == ExpectedSessionDispatch(m, path)
  {
    SessionDispatchUnfolded(m, path);
    SessionRouteConditions(m, path);
  }

  /** The question table dispatches exactly as the case analysis says. */
  lemma QuestionDispatch(m: Method, path: seq<string>)
    ensures Dispatch(QuestionRoutes, m, path) == ExpectedQuestionDispatch(m, path)
  {
    var t := QuestionRoutes;
    assert FirstServing(t, m, path, 2) == 2;
    assert FirstServing(t, m, path, 1) == if Serves(t[1], m, path) then 1 else 2;
    assert FirstServing(t, m, path, 0) == if Serves(t[0], m, path) then 0 else FirstServing(t, m, path, 1);
    OneSegmentRoute(t[0], m, path);
    OneSegmentRoute(t[1], m, path);
  }

  /** Every route of both tables runs `protect` before its handler. */
  lemma EveryRouteProtected(m: Method, path: seq<string>)
    ensures Dispatch(SessionRoutes, m, path).Some? ==> Dispatch(SessionRoutes, m, path).value.middleware == [Protect]
    ensures Dispatch(QuestionRoutes, m, path).Some? ==> Dispatch(QuestionRoutes, m, path).value.middleware == [Protect]
  {
    SessionDispatch(m, path);
    QuestionDispatch(m, path);
  }

  /** "/my-sessions" reaches the list handler, not the by-id handler, because it is registered first. */
  lemma MySessionsRegisteredFirst()
    ensures Dispatch(SessionRoutes, GET, ["my-sessions"]) == Some(Protected(GetMySessions))
    ensures Dispatch(SessionRoutes, DELETE, ["my-sessions"]) == Some(ProtectedWithId(DeleteSession, "my-sessions"))
  {
    SessionDispatch(GET, ["my-sessions"]);
    SessionDispatch(DELETE, ["my-sessions"]);
  }

  /** DELETE "/add" on the question table is a delete of the question with id "add";
      the disabled pin and note routes match nothing, and there is no GET route. */
  lemma QuestionTableEdges(x: string, path: seq<string>)
    ensures Dispatch(QuestionRoutes, DELETE, ["add"]) == Some(ProtectedWithId(DeleteQuestionById, "add"))
    ensures Dispatch(QuestionRoutes, POST, [x, "pin"]) == None
    ensures Dispatch(QuestionRoutes, POST, [x, "note"]) == None
    ensures Dispatch(QuestionRoutes, GET, path) == None
  {
    QuestionDispatch(DELETE, ["add"]);
    QuestionDispatch(POST, [x, "pin"]);
    QuestionDispatch(POST, [x, "note"]);
    QuestionDispatch(GET, path);
  }

  // ---------------------------------------------------------------------------
  // From client paths to segments

  /** Splits text at every '/'. */
  function SplitSlashes(s: string): (parts: seq<string>)
    ensures |parts| >= 1
  {
    if s == [] then [""]
    else if s[0] == '/' then [""] + SplitSlashes(s[1..])
    else
      var rest := SplitSlashes(s[1..]);
      [[s[0]] + rest[0]] + rest[1..]
  }

  /** The segments of a path that starts with '/'. */
  function Segments(path: string): seq<string> {
    if path != [] && path[0] == '/' then SplitSlashes(path[1..]) else SplitSlashes(path)
  }

  lemma {:induction false} SplitNoSlash(a: string)
    requires '/' !in a
    ensures SplitSlashes(a) == [a]
  {
    if a != [] {
      SplitNoSlash(a[1..]);
      assert a == [a[0]] + a[1..];
    }
  }

  lemma {:induction false} SplitAtSlash(a: string, b: string)
    requires '/' !in a
    ensures SplitSlashes(a + "/" + b) == [a] + SplitSlashes(b)
  {
    if a == [] {
      assert a + "/" + b == "/" + b;
      assert ("/" + b)[1..] == b;
    } else {
      var s := a + "/" + b;
      assert s[0] == a[0];
      assert s[1..] == a[1..] + "/" + b;
      SplitAtSlash(a[1..], b);
      assert a == [a[0]] + a[1..];
    }
  }

  /** The client's path for one session splits into the mount point and the id. */
  lemma SessionPathSegments(id: string)
    requires '/' !in id
    ensures Segments(ApiPaths.SessionGetOne(id)) == ["api", "sessions", id]
  {
    var p := ApiPaths.SessionGetOne(id);
    assert p[1..] == "api" + "/" + ("sessions" + "/" + id);
    SplitAtSlash("api", "sessions" + "/" + id);
    SplitAtSlash("sessions", id);
    SplitNoSlash(id);
  }

  /** The client's path for one question splits into the mount point and the id. */
  lemma QuestionPathSegments(id: string)
    requires '/' !in id
    ensures Segments(ApiPaths.QuestionDelete(id)) == ["api", "questions", id]
  {
    var p := ApiPaths.QuestionDelete(id);
    assert p[1..] == "api" + "/" + ("questions" + "/" + id);
    SplitAtSlash("api", "questions" + "/" + id);
    SplitAtSlash("questions", id);
    SplitNoSlash(id);
  }

  /** Mounted under "/api/sessions" (the server entry file is not part of this
      model; the mount point is the one the client's paths use), the path the
      client builds for one session reaches the by-id handlers with that id,
      except the id "my-sessions", whose GET reaches the list handler. */
  lemma SessionPathRoutes(id: string)
    requires id != "" && '/' !in id
    ensures Segments(ApiPaths.SessionGetOne(id)) == ["api", "sessions", id]
    ensures id != "my-sessions" ==>
              Dispatch(SessionRoutes, GET, [id]) == Some(ProtectedWithId(GetSessionById, id))
    ensures id == "my-sessions" ==>
              Dispatch(SessionRoutes, GET, [id]) == Some(Protected(GetMySessions))
    ensures Dispatch(SessionRoutes, DELETE, [id]) == Some(ProtectedWithId(DeleteSession, id))
  {
    SessionPathSegments(id);
    SessionDispatch(GET, [id]);
    SessionDispatch(DELETE, [id]);
  }

  /** The client's delete path for a question reaches the question delete handler. */
  lemma QuestionPathRoutes(id: string)
    requires id != "" && '/' !in id
    ensures Segments(ApiPaths.QuestionDelete(id)) == ["api", "questions", id]
    ensures Dispatch(QuestionRoutes, DELETE, [id]) == Some(ProtectedWithId(DeleteQuestionById, id))
  {
    QuestionPathSegments(id);
    QuestionDispatch(DELETE, [id]);
  }
}
