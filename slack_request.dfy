/** A slash-command request as Slack posts it: the form fields, the command
    parameters split out of its text, and the authentication of the request
    by its signature headers. The clock and the HMAC-SHA256 digest are
    inputs (`now`, `hmac`). */
module SlackRequests {
  import opened Wrappers
  import opened Strings
  import opened Codes

  const SignatureHeader := "X-Slack-Signature"
  const TimestampHeader := "X-Slack-Request-Timestamp"

  /** The largest age, in seconds, of a request that is still accepted. */
  const MaxRequestAge := 60

  /** `[] if text == '' else text.split('+')`. */
  function CommandParameters(text: string): (ps: seq<string>)
    ensures ps == [] <==> text == ""
    ensures text != "" ==> Join(ps, '+') == text
    ensures forall i :: 0 <= i < |ps| ==> '+' !in ps[i]
  {
    if text == "" then [] else Split(text, '+')
  }

  /** Parameters without `+` are split back out of the text they join to. */
  lemma CommandParametersOfJoin(ps: seq<string>)
    requires |ps| > 0 && Join(ps, '+') != ""
    requires forall i :: 0 <= i < |ps| ==> '+' !in ps[i]
    ensures CommandParameters(Join(ps, '+')) == ps
  {
    SplitJoin(ps, '+');
  }

  /** What authenticating a request can raise: `int()` of a timestamp
      header that is not an integer raises ValueError, and
      `hmac.compare_digest` of a text holding a non-ASCII character raises
      TypeError. */
  datatype RequestError = TimestampNotInteger | SignatureNotAscii

  /** The texts `hmac.compare_digest` accepts: ASCII characters only. */
  predicate IsAscii(s: string)
  {
    forall i :: 0 <= i < |s| ==> s[i] as int < 128
  }

  /** `"v0=" + hmac(secret, f"v0:{timestamp}:{body}")`: the timestamp is
      written back from its parsed value. */
  function ExpectedSignature(secret: string, timestamp: int, body: string,
                             hmac: (string, string) -> string): (sig: string)
    ensures |sig| >= 3 && sig[..3] == "v0="
    ensures sig[3..] == hmac(secret, "v0:" + IntToString(timestamp) + ":" + body)
  {
    "v0=" + hmac(secret, "v0:" + IntToString(timestamp) + ":" + body)
  }

  class SlackRequest {
    var headers: map<string, string>
    var token: string
    var teamId: string
    var teamDomain: string
    var channelId: string
    var channelName: string
    var userId: string
    var userName: string
    var command: string
    var commandParameters: seq<string>
    var apiAppId: string
    var isEnterpriseInstall: string
    var responseUrl: string
    var triggerId: string

    /** `SlackRequest(...)`: every field is stored as given, except the text,
        which is kept only as its `+`-separated parameters. */
    constructor (headers: map<string, string>, token: string, teamId: string, teamDomain: string,
                 channelId: string, channelName: string, userId: string, userName: string,
                 command: string, text: string, apiAppId: string, isEnterpriseInstall: string,
                 responseUrl: string, triggerId: string)
      ensures this.headers == headers && this.token == token && this.teamId == teamId
      ensures this.teamDomain == teamDomain && this.channelId == channelId
      ensures this.channelName == channelName && this.userId == userId && this.userName == userName
      ensures this.command == command && this.commandParameters == CommandParameters(text)
      ensures this.apiAppId == apiAppId && this.isEnterpriseInstall == isEnterpriseInstall
      ensures this.responseUrl == responseUrl && this.triggerId == triggerId
    {
      this.headers := headers;
      this.token := token;
      this.teamId := teamId;
      this.teamDomain := teamDomain;
      this.channelId := channelId;
      this.channelName := channelName;
      this.userId := userId;
      this.userName := userName;
      this.command := command;
      this.commandParameters := if text == "" then [] else Split(text, '+');
      this.apiAppId := apiAppId;
      this.isEnterpriseInstall := isEnterpriseInstall;
      this.responseUrl := responseUrl;
      this.triggerId := triggerId;
    }

    predicate HasSlackHeaders()
      reads this
    {
      SignatureHeader in headers && TimestampHeader in headers
    }

    /** `validate_slack_request_signature(raw_body)`, with `now` the whole
        seconds of the clock and `secret` the app's signing secret. The
        checks run in order: the headers, the timestamp's form, the age
        (only requests older than a minute are refused, not ones from the
        future), and last the signature, where the comparison refuses a
        text that is not ASCII. */
    function ValidateSignature(rawBody: string, now: int, secret: string,
                               hmac: (string, string) -> string): (r: Result<Code, RequestError>)
      reads this
      ensures r == Ok(NonSlackRequest) <==> !HasSlackHeaders()
      ensures r == Err(TimestampNotInteger) <==> HasSlackHeaders() && ParseInt(headers[TimestampHeader]).None?
      ensures r == Ok(BadSlackTimestampRequest) <==>
        HasSlackHeaders() && ParseInt(headers[TimestampHeader]).Some?
        && now - ParseInt(headers[TimestampHeader]).value > MaxRequestAge
      ensures r == Ok(Success) <==>
        HasSlackHeaders() && ParseInt(headers[TimestampHeader]).Some?
        && now - ParseInt(headers[TimestampHeader]).value <= MaxRequestAge
        && IsAscii(headers[SignatureHeader])
        && headers[SignatureHeader] == ExpectedSignature(secret, ParseInt(headers[TimestampHeader]).value, rawBody, hmac)
      ensures r == Err(SignatureNotAscii) <==>
        HasSlackHeaders() && ParseInt(headers[TimestampHeader]).Some?
        && now - ParseInt(headers[TimestampHeader]).value <= MaxRequestAge
        && !(IsAscii(headers[SignatureHeader])
             && IsAscii(ExpectedSignature(secret, ParseInt(headers[TimestampHeader]).value, rawBody, hmac)))
      ensures r.Ok? ==> r.value in {NonSlackRequest, BadSlackTimestampRequest, BadSlackSignature, Success}
    {
      if !(SignatureHeader in headers && TimestampHeader in headers) then Ok(NonSlackRequest)
      else
        var requestSignature := headers[SignatureHeader];
        match ParseInt(headers[TimestampHeader])
        case None => Err(TimestampNotInteger)
        case Some(requestTimestamp) =>
          if now - requestTimestamp > MaxRequestAge then Ok(BadSlackTimestampRequest)
          else
            var signatureCheck := "v0=" + hmac(secret, "v0:" + IntToString(requestTimestamp) + ":" + rawBody);
            if !IsAscii(signatureCheck) || !IsAscii(requestSignature) then Err(SignatureNotAscii)
            else if signatureCheck != requestSignature then Ok(BadSlackSignature)
            else Ok(Success)
    }

    /** A request signed with the signing secret over its own timestamp and
        body, at most a minute old, is accepted; the digest is a hexadecimal,
        so ASCII, text. */
    lemma SignedRequestAccepted(rawBody: string, now: int, secret: string,
                                hmac: (string, string) -> string, timestamp: int)
      requires HasSlackHeaders()
      requires headers[TimestampHeader] == IntToString(timestamp)
      requires headers[SignatureHeader] == ExpectedSignature(secret, timestamp, rawBody, hmac)
      requires IsAscii(hmac(secret, "v0:" + IntToString(timestamp) + ":" + rawBody))
      requires now - timestamp <= MaxRequestAge
      ensures ValidateSignature(rawBody, now, secret, hmac) == Ok(Success)
    {
      ParseIntOfIntToString(timestamp);
    }

    /** The verdict on a request without both headers, or with a stale
        timestamp, does not depend on the digest: no signature is computed
        for it. */
    lemma RefusedBeforeSigning(rawBody: string, now: int, secret: string,
                               hmac1: (string, string) -> string, hmac2: (string, string) -> string)
      requires ValidateSignature(rawBody, now, secret, hmac1) in {Ok(NonSlackRequest), Ok(BadSlackTimestampRequest), Err(TimestampNotInteger)}
      ensures ValidateSignature(rawBody, now, secret, hmac2) == ValidateSignature(rawBody, now, secret, hmac1)
    {
    }

    /** A timestamp from the future is never refused as stale. */
    lemma FutureTimestampNotStale(rawBody: string, now: int, secret: string, hmac: (string, string) -> string)
      requires HasSlackHeaders() && ParseInt(headers[TimestampHeader]).Some?
      requires ParseInt(headers[TimestampHeader]).value >= now
      ensures ValidateSignature(rawBody, now, secret, hmac) != Ok(BadSlackTimestampRequest)
    {
    }
  }
}
