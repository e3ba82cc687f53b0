/** The login check of the clockzy web app: a user's temporary credentials
    are read from the `temporary_credentials` table and compared with the
    password given. The name of the management command is an input
    (`managementRequest`). So is whether a moment has passed (`hasExpired`):
    the login imports `date_time_has_expired` from the time utilities, but
    the modelled time utilities do not define it. */
module Controller {
  import opened Wrappers
  import opened Strings
  import opened Database

  const TemporaryCredentialsTable := "temporary_credentials"

  const MissingHead := "The user "

  function MissingTail(managementRequest: string): string
  {
    " does not exist, or does not have credentials set up for the clockzy web app. Please run "
    + managementRequest + " in the clockzy slack application to create them."
  }

  function MissingCredentialsMessage(userId: string, managementRequest: string): string
  {
    MissingHead + userId + MissingTail(managementRequest)
  }

  const WrongPasswordMessage := "Your password is not correct."

  function ExpiredPasswordMessage(managementRequest: string): string
  {
    "Your password has expired. Please run " + managementRequest + " in the clockzy slack application "
    + "to create a new one."
  }

  /** Why a login is refused, in the order the reasons are checked. */
  datatype Refusal = NoCredentials | WrongPassword | PasswordExpired

  /** The check chain of `validate_credentials` on the rows read for the
      user: no row, then a wrong password, then an expired one. Only the
      password and the expiry columns of the first row are read; a first row
      too short for them raises IndexError. `None` accepts the login. */
  function CheckCredentials(password: string, userData: seq<Row>, hasExpired: Value -> bool)
    : (r: Result<Option<Refusal>, DbError>)
    ensures r == Ok(Some(NoCredentials)) <==> |userData| == 0
    ensures r == Err(IndexError) <==> |userData| > 0 && |userData[0]| < 3
    ensures r == Ok(Some(WrongPassword)) <==>
      |userData| > 0 && |userData[0]| >= 3 && userData[0][1] != VString(password)
    ensures r == Ok(Some(PasswordExpired)) <==>
      |userData| > 0 && |userData[0]| >= 3 && userData[0][1] == VString(password) && hasExpired(userData[0][2])
    ensures r == Ok(None) <==>
      |userData| > 0 && |userData[0]| >= 3 && userData[0][1] == VString(password) && !hasExpired(userData[0][2])
  {
    if |userData| == 0 then Ok(Some(NoCredentials))
    else if |userData[0]| < 3 then Err(IndexError)
    else
      var userPassword := userData[0][1];
      var passwordExpirationTime := userData[0][2];
      if userPassword != VString(password) then Ok(Some(WrongPassword))
      else if hasExpired(passwordExpirationTime) then Ok(Some(PasswordExpired))
      else Ok(None)
  }

  /** The text returned with a refusal. */
  function RefusalMessage(reason: Refusal, userId: string, managementRequest: string): string
  {
    match reason
    case NoCredentials => MissingCredentialsMessage(userId, managementRequest)
    case WrongPassword => WrongPasswordMessage
    case PasswordExpired => ExpiredPasswordMessage(managementRequest)
  }

  /** Each refusal has its own, non-empty text: the first letter tells the
      missing credentials apart, the fifteenth the wrong password from the
      expired one. */
  lemma RefusalsDistinct(reason1: Refusal, reason2: Refusal, userId: string, managementRequest: string)
    ensures RefusalMessage(reason1, userId, managementRequest) != ""
    ensures RefusalMessage(reason1, userId, managementRequest) == RefusalMessage(reason2, userId, managementRequest)
      <==> reason1 == reason2
  {
    var missing := MissingCredentialsMessage(userId, managementRequest);
    var expired := ExpiredPasswordMessage(managementRequest);
    assert missing[0] == 'T';
    assert expired[0] == 'Y' && expired[14] == 'h';
    assert WrongPasswordMessage[0] == 'Y' && WrongPasswordMessage[14] == 'i';
  }

  /** `validate_credentials` on the rows read for the user: `(True, '')`
      when the chain accepts, otherwise `False` and the refusal's text. */
  function CredentialsVerdict(userId: string, password: string, userData: seq<Row>,
                              hasExpired: Value -> bool, managementRequest: string): (r: Result<(bool, string), DbError>)
    ensures r.Err? <==> CheckCredentials(password, userData, hasExpired).Err?
    ensures r.Ok? ==> (r.value.0 <==> CheckCredentials(password, userData, hasExpired).value.None?)
    ensures r.Ok? && !r.value.0 ==>
      r.value.1 == RefusalMessage(CheckCredentials(password, userData, hasExpired).value.value, userId, managementRequest)
  {
    match CheckCredentials(password, userData, hasExpired)
    case Err(e) => Err(e)
    case Ok(None) => Ok((true, ""))
    case Ok(Some(reason)) => Ok((false, RefusalMessage(reason, userId, managementRequest)))
  }

  /** A refusal always explains itself; an acceptance carries no message. */
  lemma VerdictExplained(userId: string, password: string, userData: seq<Row>,
                         hasExpired: Value -> bool, managementRequest: string)
    requires CredentialsVerdict(userId, password, userData, hasExpired, managementRequest).Ok?
    ensures var (ok, message) := CredentialsVerdict(userId, password, userData, hasExpired, managementRequest).value;
      ok <==> message == ""
  {
    var check := CheckCredentials(password, userData, hasExpired);
    if check.value.Some? {
      RefusalsDistinct(check.value.value, check.value.value, userId, managementRequest);
    }
  }

  /** Rows after the first never change the verdict. */
  lemma OnlyFirstRowRead(password: string, first: Row, rest1: seq<Row>, rest2: seq<Row>, hasExpired: Value -> bool)
    ensures CheckCredentials(password, [first] + rest1, hasExpired) == CheckCredentials(password, [first] + rest2, hasExpired)
  {
  }

  /** The missing-credentials message names the user. */
  lemma MissingMessageNamesUser(userId: string, managementRequest: string)
    ensures StripAffixes(MissingCredentialsMessage(userId, managementRequest), MissingHead,
                         MissingTail(managementRequest)) == Some(userId)
  {
    StripWrapped(MissingHead, userId, MissingTail(managementRequest));
  }

  /** `validate_credentials(user_id, password)`: the rows come from the
      select on `user_id` in the credentials table. */
  method ValidateCredentials(execute: Executor, userId: string, password: string,
                             hasExpired: Value -> bool, managementRequest: string)
    returns (r: Result<(bool, string), DbError>)
    ensures var q := SelectQuery([("user_id", VString(userId))], TemporaryCredentialsTable);
      && (RunQuery(execute, q).Err? ==> r == Err(RunQuery(execute, q).error))
      && (execute(q).Ok? && execute(q).value.Rows? ==>
            r == CredentialsVerdict(userId, password, execute(q).value.rows, hasExpired, managementRequest))
  {
    var userData := GetDatabaseDataFromObjects(execute, [("user_id", VString(userId))], TemporaryCredentialsTable);
    if userData.Err? {
      return Err(userData.error);
    }
    r := CredentialsVerdict(userId, password, userData.value, hasExpired, managementRequest);
  }
}
