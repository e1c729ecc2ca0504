/** The client's table of backend endpoint paths: constants and the
    id-parameterised builders. */
module ApiPaths {
  import opened Text

  const BaseUrl: string := "http://localhost:8000"

  const AuthRegister: string := "/api/auth/register"
  const AuthLogin: string := "/api/auth/login"
  const AuthGetProfile: string := "/api/auth/profile"

  const AiGenerateQuestions: string := "/api/ai/generate-questions"
  const AiGenerateExplanation: string := "/api/ai/generate-explanation"

  const SessionCreate: string := "/api/sessions/create"
  const SessionGetAll: string := "/api/sessions/my-sessions"

  const QuestionAddToSession: string := "/api/questions/add"

  const SessionsPrefix: string := "/api/sessions/"
  const QuestionsPrefix: string := "/api/questions/"

  function SessionGetOne(id: string): string {
    SessionsPrefix + id
  }

  function SessionDelete(id: string): string {
    SessionsPrefix + id
  }

  function QuestionUpdateNote(id: string): string {
    QuestionsPrefix + id + "/note"
  }

  function QuestionDelete(id: string): string {
    QuestionsPrefix + id
  }

  /** The fixed paths of the table. */
  function ConstantPaths(): seq<string> {
    [AuthRegister, AuthLogin, AuthGetProfile, AiGenerateQuestions, AiGenerateExplanation,
     SessionCreate, SessionGetAll, QuestionAddToSession]
  }

  /** Fetching and deleting one session address the same path. */
  lemma SessionGetOneIsDelete(id: string)
    ensures SessionGetOne(id) == SessionDelete(id) == "/api/sessions/" + id
  {
  }

  /** The one-session path for the id "my-sessions" is the list path. */
  lemma MySessionsIdCollides()
    ensures SessionGetOne("my-sessions") == SessionGetAll
  {
  }

  /** The note path extends the question's own path. */
  lemma NotePathExtendsDeletePath(id: string)
    ensures QuestionUpdateNote(id) == QuestionDelete(id) + "/note"
  {
  }

  /** Different ids give different paths, for every builder. */
  lemma BuildersInjective(a: string, b: string)
    requires a != b
    ensures SessionGetOne(a) != SessionGetOne(b)
    ensures SessionDelete(a) != SessionDelete(b)
    ensures QuestionDelete(a) != QuestionDelete(b)
    ensures QuestionUpdateNote(a) != QuestionUpdateNote(b)
  {
    assert SessionGetOne(a)[|SessionsPrefix|..] == a;
    assert SessionGetOne(b)[|SessionsPrefix|..] == b;
    assert QuestionDelete(a)[|QuestionsPrefix|..] == a;
    assert QuestionDelete(b)[|QuestionsPrefix|..] == b;
    var na, nb := QuestionUpdateNote(a), QuestionUpdateNote(b);
    assert na[|QuestionsPrefix|..|na| - 5] == a;
    assert nb[|QuestionsPrefix|..|nb| - 5] == b;
  }

  /** Every relative path of the table lies under "/api/". */
  lemma AllPathsUnderApi(id: string)
    ensures forall i :: 0 <= i < |ConstantPaths()| ==> StartsWith(ConstantPaths()[i], "/api/")
    ensures StartsWith(SessionGetOne(id), "/api/") && StartsWith(SessionDelete(id), "/api/")
    ensures StartsWith(QuestionDelete(id), "/api/") && StartsWith(QuestionUpdateNote(id), "/api/")
  {
    assert SessionGetOne(id)[..5] == SessionsPrefix[..5];
    assert QuestionDelete(id)[..5] == QuestionsPrefix[..5];
    assert QuestionUpdateNote(id)[..5] == QuestionsPrefix[..5];
  }
}
