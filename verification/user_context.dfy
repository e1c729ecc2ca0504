/** The signed-in user shared across the client: the user value, the
    loading flag, and the "token" entry of the browser's local storage,
    which is modelled as a string-to-string map. The profile fetch's answer
    is a parameter. */
module UserContext {
  import opened Js
  import opened Http
  import ApiPaths

  const TokenKey: string := "token"

  datatype State = State(user: JsValue, loading: bool, storage: map<string, string>)

  /** The provider's first render: no user, still loading, storage as the browser has it. */
  function Init(storage: map<string, string>): State {
    State(JsNull, true, storage)
  }

  /** `localStorage.getItem("token")` is truthy. */
  predicate HasToken(storage: map<string, string>) {
    TokenKey in storage && storage[TokenKey] != ""
  }

  /** Sign out: no user and no stored token; loading and every other stored key stay. */
  function ClearUser(s: State): (r: State)
    ensures r.user == JsNull && r.loading == s.loading
    ensures TokenKey !in r.storage
    ensures forall k :: k != TokenKey ==> (k in r.storage <==> k in s.storage)
    ensures forall k :: k != TokenKey && k in s.storage ==> r.storage[k] == s.storage[k]
  {
    State(JsNull, s.loading, s.storage - {TokenKey})
  }

  /** Sign in with the user data the auth endpoints returned: the user is the
      data, its `token` is stored as a string and loading ends. Reading the
      token of null or undefined data throws after the user was set, so then
      only the user changes. */
  function UpdateUser(s: State, d: JsValue): (r: State)
    ensures r.user == d
    ensures IsNullish(d) ==> r == s.(user := d)
    ensures !IsNullish(d) ==> && !r.loading
                              && TokenKey in r.storage
                              && r.storage[TokenKey] == ToString(OptGet(d, "token"))
                              && r.storage == s.storage[TokenKey := r.storage[TokenKey]]
  {
    match Get(d, "token")
    case None => s.(user := d)
    case Some(token) => State(d, false, s.storage[TokenKey := ToString(token)])
  }

  /** What the mount effect did: the resulting state and the requests it sent. */
  datatype MountRun = MountRun(state: State, requests: seq<Request>)

  /** The mount effect. With a user already present it does nothing. Without
      a truthy stored token it only ends loading. Otherwise it fetches the
      profile: on success the user is the response data, on failure the user
      is signed out; loading ends either way. */
  function Mount(s: State, profile: Outcome): (r: MountRun)
    ensures Truthy(s.user) ==> r == MountRun(s, [])
    ensures r.requests != [] <==> !Truthy(s.user) && HasToken(s.storage)
    ensures r.requests != [] ==> r.requests == [Request(GET, ApiPaths.AuthGetProfile, None)]
    ensures !Truthy(s.user) ==> !r.state.loading
    ensures !Truthy(s.user) && !HasToken(s.storage) ==> r.state == s.(loading := false)
    ensures !Truthy(s.user) && HasToken(s.storage) && profile.Ok? ==>
              r.state == s.(user := profile.data, loading := false)
    ensures !Truthy(s.user) && HasToken(s.storage) && profile.Rejected? ==>
              r.state == ClearUser(s).(loading := false)
  {
    if Truthy(s.user) then MountRun(s, [])
    else if !HasToken(s.storage) then MountRun(s.(loading := false), [])
    else
      var fetch := Request(GET, ApiPaths.AuthGetProfile, None);
      match profile
      case Ok(data) => MountRun(s.(user := data, loading := false), [fetch])
      case Rejected(_) => MountRun(ClearUser(s).(loading := false), [fetch])
  }

  /** Signing in and then out leaves no token, and every other stored key as it was. */
  lemma UpdateThenClear(s: State, d: JsValue)
    ensures var r := ClearUser(UpdateUser(s, d));
            && r.user == JsNull
            && TokenKey !in r.storage
            && r.storage == s.storage - {TokenKey}
  {
    var u := UpdateUser(s, d);
    assert u.storage - {TokenKey} == s.storage - {TokenKey};
  }

  /** A rejected profile fetch drops the token, so the next mount fetches nothing. */
  lemma FailedFetchIsNotRetried(storage: map<string, string>, profile: Outcome, next: Outcome)
    requires profile.Rejected?
    ensures var first := Mount(Init(storage), profile);
            && first.state.user == JsNull
            && Mount(first.state, next).requests == []
  {
  }

  /** After a sign-in with a non-empty token, a fresh provider fetches the profile. */
  lemma SignedInMountFetches(s: State, d: JsValue, profile: Outcome)
    requires !IsNullish(d) && ToString(OptGet(d, "token")) != ""
    ensures Mount(Init(UpdateUser(s, d).storage), profile).requests == [Request(GET, ApiPaths.AuthGetProfile, None)]
  {
  }
}
