/** The Intratime time-clock service: the ids it gives the clock actions,
    the login that yields a session token, and the credential check built
    on it. The HTTP post and the decoding of its JSON answer are inputs. */
module Intratime {
  import opened Wrappers
  import opened Json
  import opened Codes
  import Clocking
  import Strings
  import SlackCore

  /** The id of each clock action. */
  const ActionIds: map<string, int> := map["in" := 0, "out" := 1, "pause" := 2, "return" := 3]

  /** `get_action_id(action)`; an action outside the table raises KeyError. */
  function GetActionId(action: string): (id: int)
    requires action in ActionIds
    ensures 0 <= id < 4
    ensures action == Clocking.InAction <==> id == 0
    ensures action == Clocking.OutAction <==> id == 1
    ensures action == Clocking.PauseAction <==> id == 2
    ensures action == Clocking.ReturnAction <==> id == 3
  {
    ActionIds[action]
  }

  /** The action an id stands for: the inverse of the table. */
  function ActionOfId(id: int): Option<string>
  {
    if id == 0 then Some(Clocking.InAction)
    else if id == 1 then Some(Clocking.OutAction)
    else if id == 2 then Some(Clocking.PauseAction)
    else if id == 3 then Some(Clocking.ReturnAction)
    else None
  }

  /** Every id names back its action, so no two actions share an id. */
  lemma ActionIdRoundTrip(action: string)
    requires action in ActionIds
    ensures ActionOfId(GetActionId(action)) == Some(action)
  {
  }

  lemma ActionIdsDistinct(a: string, b: string)
    requires a in ActionIds && b in ActionIds
    ensures GetActionId(a) == GetActionId(b) <==> a == b
  {
    ActionIdRoundTrip(a);
    ActionIdRoundTrip(b);
  }

  /** The table covers exactly the actions the clocking rules know. */
  lemma ActionIdsCoverClockActions(action: string)
    ensures action in ActionIds <==> action in Clocking.WhiteList
  {
  }

  const ApiUrl := "http://newapi.intratime.es"
  const LoginPath := "/api/user/login"

  /** The form body of the login request. */
  function LoginPayload(email: string, password: string): string
  {
    "user=" + email + "&pin=" + password
  }

  /** The login form reads back as the email and the password when neither
      holds a form separator. */
  lemma LoginPayloadFields(email: string, password: string)
    requires SlackCore.PlainPair(("user", email)) && SlackCore.PlainPair(("pin", password))
    ensures var args := SlackCore.DecodeArgs(LoginPayload(email, password));
      "user" in args && args["user"] == email && "pin" in args && args["pin"] == password
  {
    var ps := [("user", email), ("pin", password)];
    var user := "user" + "=" + email;
    var pin := "pin" + "=" + password;
    assert SlackCore.Fields(ps) == [user, pin] by {
      assert ps[1..] == [("pin", password)];
      assert SlackCore.Fields(ps[1..]) == [pin] + SlackCore.Fields([]);
    }
    assert SlackCore.Encode(ps) == LoginPayload(email, password) by {
      assert [user, pin][1..] == [pin];
      assert Strings.Join([pin], '&') == pin;
      assert "user" + "=" == "user=";
      assert "&" + "pin" + "=" == "&pin=";
      Strings.AppendAssoc("user" + "=", email, "&");
    }
    SlackCore.DecodeDistinctKeys(ps, 0);
    SlackCore.DecodeDistinctKeys(ps, 1);
  }

  /** What the login post gives back: the builtin `ConnectionError` (the
      one exception the login catches), any other exception of the post
      (the connection errors of `requests` derive from `IOError`, not from
      the builtin `ConnectionError`, so they are among these), or an answer
      whose body is JSON (`None` when it is not). */
  datatype LoginResponse = ConnectionFailed | RequestRaised | Answered(body: Option<Json>)

  /** What `get_auth_token` lets escape: an exception of the post that it
      does not catch, `json.loads` of a body that is not JSON, or indexing
      an answer that is not a dictionary. */
  datatype LoginFault = RequestNotCaught | BodyNotJson | BodyNotObject

  /** `get_auth_token` returns either the token or an error code. */
  datatype AuthToken = Token(token: Json) | Refused(code: Code)

  /** `get_auth_token(email, password)`, with the HTTP post as input. */
  function GetAuthToken(email: string, password: string,
                        post: (string, string) -> LoginResponse): (r: Result<AuthToken, LoginFault>)
    ensures post(ApiUrl + LoginPath, LoginPayload(email, password)).ConnectionFailed?
      <==> r == Ok(Refused(IntratimeConnectionError))
    ensures post(ApiUrl + LoginPath, LoginPayload(email, password)).RequestRaised?
      <==> r == Err(RequestNotCaught)
    ensures r == Ok(Refused(IntratimeAuthError)) <==>
      var answer := post(ApiUrl + LoginPath, LoginPayload(email, password));
      answer.Answered? && answer.body.Some? && answer.body.value.JObject?
      && Get(answer.body.value.fields, "USER_TOKEN").None?
    ensures r.Ok? && r.value.Token? ==>
      var answer := post(ApiUrl + LoginPath, LoginPayload(email, password));
      answer.Answered? && answer.body.Some? && answer.body.value.JObject?
      && Get(answer.body.value.fields, "USER_TOKEN") == Some(r.value.token)
  {
    var request := post(ApiUrl + LoginPath, LoginPayload(email, password));
    match request
    case ConnectionFailed => Ok(Refused(IntratimeConnectionError))
    case RequestRaised => Err(RequestNotCaught)
    case Answered(body) =>
      match body
      case None => Err(BodyNotJson)
      case Some(json) =>
        if !json.JObject? then Err(BodyNotObject)
        else
          match Get(json.fields, "USER_TOKEN")
          case None => Ok(Refused(IntratimeAuthError))
          case Some(token) => Ok(Token(token))
  }

  /** `check_user_credentials(email, password)`: the login gave a token,
      neither of the two error codes. */
  function CheckUserCredentials(email: string, password: string,
                                post: (string, string) -> LoginResponse): (r: Result<bool, LoginFault>)
    ensures r.Ok? <==> GetAuthToken(email, password, post).Ok?
    ensures r == Ok(true) <==> GetAuthToken(email, password, post).Ok? && GetAuthToken(email, password, post).value.Token?
  {
    match GetAuthToken(email, password, post)
    case Err(fault) => Err(fault)
    case Ok(token) =>
      Ok(token != Refused(IntratimeConnectionError) && token != Refused(IntratimeAuthError))
  }

  /** Credentials are accepted exactly when the answer is a dictionary
      holding a `USER_TOKEN`. */
  lemma CredentialsNeedToken(email: string, password: string, post: (string, string) -> LoginResponse)
    ensures CheckUserCredentials(email, password, post) == Ok(true) <==>
      var answer := post(ApiUrl + LoginPath, LoginPayload(email, password));
      answer.Answered? && answer.body.Some? && answer.body.value.JObject?
      && Get(answer.body.value.fields, "USER_TOKEN").Some?
  {
  }
}
