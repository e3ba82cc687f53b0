/** The Slack plumbing of the bot: decoding the `x=1&y=2` argument text of a
    slash command, checking the shape of a message before it is posted, and
    turning the answer of the post into a result code. URL unquoting and the
    HTTP post are inputs (`unquote`, `post`). */
module SlackCore {
  import opened Wrappers
  import opened Strings
  import opened Json
  import opened Codes

  /** The pieces of every `&`-separated item split on `=`, in order. */
  function Pieces(items: seq<string>): seq<string>
  {
    if |items| == 0 then [] else Split(items[0], '=') + Pieces(items[1..])
  }

  /** `zip(elements[0::2], elements[1::2])`: even places are keys, odd places
      values; an unpaired last piece is dropped. */
  function Pairs(elements: seq<string>): (ps: seq<(string, string)>)
    ensures |ps| == |elements| / 2
    ensures forall k :: 0 <= k < |ps| ==> ps[k] == (elements[2 * k], elements[2 * k + 1])
  {
    seq(|elements| / 2, k requires 0 <= k < |elements| / 2 => (elements[2 * k], elements[2 * k + 1]))
  }

  /** `dict(pairs)`: the pairs are stored in order, so a later pair with the
      same key overwrites an earlier one. */
  function ToMap(ps: seq<(string, string)>): map<string, string>
  {
    if |ps| == 0 then map[] else ToMap(ps[..|ps| - 1])[ps[|ps| - 1].0 := ps[|ps| - 1].1]
  }

  /** The decoding of text that is already unquoted. */
  function DecodeArgs(data: string): map<string, string>
  {
    ToMap(Pairs(Pieces(Split(data, '&'))))
  }

  /** `decode_slack_args(data)`. */
  function DecodeSlackArgs(data: string, unquote: string -> string): (args: map<string, string>)
    ensures args == DecodeArgs(unquote(data))
  {
    DecodeArgs(unquote(data))
  }

  /** The keys the pairs mention. */
  function KeysOf(ps: seq<(string, string)>): set<string>
  {
    set k | 0 <= k < |ps| :: ps[k].0
  }

  /** A key maps to the value of the last pair that names it, and the keys
      of the dictionary are exactly the keys named. */
  lemma {:induction false} LastPairWins(ps: seq<(string, string)>, i: int)
    requires 0 <= i < |ps|
    requires forall j :: i < j < |ps| ==> ps[j].0 != ps[i].0
    ensures ps[i].0 in ToMap(ps) && ToMap(ps)[ps[i].0] == ps[i].1
    decreases |ps|
  {
    if i < |ps| - 1 {
      LastPairWins(ps[..|ps| - 1], i);
    }
  }

  lemma {:induction false} ToMapKeys(ps: seq<(string, string)>)
    ensures ToMap(ps).Keys == KeysOf(ps)
    decreases |ps|
  {
    if |ps| > 0 {
      var init := ps[..|ps| - 1];
      ToMapKeys(init);
      assert KeysOf(ps) == KeysOf(init) + {ps[|ps| - 1].0} by {
        forall key | key in KeysOf(ps)
          ensures key in KeysOf(init) + {ps[|ps| - 1].0}
        {
          var k :| 0 <= k < |ps| && ps[k].0 == key;
          if k < |ps| - 1 {
            assert init[k].0 == key;
          }
        }
        forall key | key in KeysOf(init)
          ensures key in KeysOf(ps)
        {
          var k :| 0 <= k < |init| && init[k].0 == key;
          assert ps[k].0 == key;
        }
      }
    }
  }

  /** The text `k1=v1&...&kn=vn` a form encoder writes for the pairs. */
  function Fields(ps: seq<(string, string)>): (fs: seq<string>)
    ensures |fs| == |ps|
  {
    if |ps| == 0 then [] else [ps[0].0 + "=" + ps[0].1] + Fields(ps[1..])
  }

  function Encode(ps: seq<(string, string)>): string
  {
    Join(Fields(ps), '&')
  }

  /** A pair whose key and value hold neither separator. */
  predicate PlainPair(p: (string, string))
  {
    '&' !in p.0 && '=' !in p.0 && '&' !in p.1 && '=' !in p.1
  }

  /** The keys and values one after the other. */
  function Flat(ps: seq<(string, string)>): (e: seq<string>)
    ensures |e| == 2 * |ps|
  {
    if |ps| == 0 then [] else [ps[0].0, ps[0].1] + Flat(ps[1..])
  }

  lemma {:induction false} FlatIndex(ps: seq<(string, string)>, k: int)
    requires 0 <= k < |ps|
    ensures Flat(ps)[2 * k] == ps[k].0 && Flat(ps)[2 * k + 1] == ps[k].1
    decreases |ps|
  {
    if k > 0 {
      FlatIndex(ps[1..], k - 1);
    }
  }

  /** Pairing the flattened keys and values gives back the pairs. */
  lemma PairsOfFlat(ps: seq<(string, string)>)
    ensures Pairs(Flat(ps)) == ps
  {
    forall k | 0 <= k < |ps|
      ensures Pairs(Flat(ps))[k] == ps[k]
    {
      FlatIndex(ps, k);
    }
  }

  /** A plain `k=v` field splits into its key and its value. */
  lemma SplitField(key: string, value: string)
    requires '=' !in key && '=' !in value
    ensures Split(key + "=" + value, '=') == [key, value]
  {
    assert Join([key, value], '=') == key + "=" + value by {
      assert [key, value][1..] == [value];
    }
    SplitJoin([key, value], '=');
  }

  lemma {:induction false} PiecesOfFields(ps: seq<(string, string)>)
    requires forall k :: 0 <= k < |ps| ==> PlainPair(ps[k])
    ensures Pieces(Fields(ps)) == Flat(ps)
    decreases |ps|
  {
    if |ps| > 0 {
      assert PlainPair(ps[0]);
      SplitField(ps[0].0, ps[0].1);
      assert Fields(ps)[1..] == Fields(ps[1..]);
      PiecesOfFields(ps[1..]);
    }
  }

  /** The fields of plain pairs hold no `&`. */
  lemma {:induction false} FieldsPlain(ps: seq<(string, string)>)
    requires forall k :: 0 <= k < |ps| ==> PlainPair(ps[k])
    ensures forall k :: 0 <= k < |ps| ==> '&' !in Fields(ps)[k]
    decreases |ps|
  {
    if |ps| > 0 {
      assert PlainPair(ps[0]);
      FieldsPlain(ps[1..]);
      forall k | 0 <= k < |ps|
        ensures '&' !in Fields(ps)[k]
      {
        if k > 0 {
          assert Fields(ps)[k] == Fields(ps[1..])[k - 1];
        }
      }
    }
  }

  /** Decoding well-formed arguments pairs every key with its own value:
      the text of plain pairs decodes to the pairs themselves, read with
      the later pair winning. */
  lemma DecodeEncoded(ps: seq<(string, string)>)
    requires forall k :: 0 <= k < |ps| ==> PlainPair(ps[k])
    ensures DecodeArgs(Encode(ps)) == ToMap(ps)
  {
    if |ps| == 0 {
      DecodeEmpty();
    } else {
      FieldsPlain(ps);
      SplitJoin(Fields(ps), '&');
      var items := Split(Encode(ps), '&');
      assert items == Fields(ps);
      PiecesOfFields(ps);
      PairsOfFlat(ps);
    }
  }

  /** Empty text decodes to an empty dictionary. */
  lemma DecodeEmpty()
    ensures DecodeArgs("") == map[]
  {
    assert Split("", '&') == [""];
    assert Split("", '=') == [""];
    assert Pieces([""]) == [""] + Pieces([]);
  }

  /** With distinct keys, each key of well-formed arguments maps to its
      value and no other key appears. */
  lemma DecodeDistinctKeys(ps: seq<(string, string)>, i: int)
    requires forall k :: 0 <= k < |ps| ==> PlainPair(ps[k])
    requires forall j, k :: 0 <= j < k < |ps| ==> ps[j].0 != ps[k].0
    requires 0 <= i < |ps|
    ensures ps[i].0 in DecodeArgs(Encode(ps)) && DecodeArgs(Encode(ps))[ps[i].0] == ps[i].1
    ensures DecodeArgs(Encode(ps)).Keys == KeysOf(ps)
  {
    DecodeEncoded(ps);
    LastPairWins(ps, i);
    ToMapKeys(ps);
  }

  /** An unpaired last piece is dropped. */
  lemma UnpairedDropped(elements: seq<string>, last: string)
    requires |elements| % 2 == 0
    ensures Pairs(elements + [last]) == Pairs(elements)
  {
  }

  /** A repeated key keeps the value of its last pair. */
  lemma RepeatedKeyKeepsLast(ps: seq<(string, string)>, key: string, first: string, second: string)
    ensures ToMap(ps + [(key, first)] + [(key, second)])[key] == second
  {
  }

  /** `validate_message(message)`: a text, or a non-empty list whose first
      element is a dictionary. */
  predicate ValidateMessage(message: Json)
  {
    message.JString? || (message.JArray? && |message.items| > 0 && message.items[0].JObject?)
  }

  /** What the HTTP post answers. */
  datatype HttpResponse = HttpResponse(statusCode: int, text: string)

  const HttpOk := 200
  const HttpBadRequest := 400
  const HttpUnauthorized := 401
  const HttpInternalServerError := 500

  /** The result code of a post answer: a non-OK status is classified
      first, then an OK answer whose body is not `ok` is bad data. */
  function ResponseCode(response: HttpResponse): (c: Code)
    ensures c == Success <==> response.statusCode == HttpOk && response.text == "ok"
    ensures c == BadSlackApiAuthCredentials <==> response.statusCode == HttpUnauthorized
    ensures c == BadRequestData <==> response.statusCode == HttpBadRequest || (response.statusCode == HttpOk && response.text != "ok")
    ensures c == InternalServerError <==> response.statusCode == HttpInternalServerError
    ensures c == UndefinedError <==> response.statusCode !in {HttpOk, HttpBadRequest, HttpUnauthorized, HttpInternalServerError}
  {
    if response.statusCode != HttpOk then
      if response.statusCode == HttpUnauthorized then BadSlackApiAuthCredentials
      else if response.statusCode == HttpBadRequest then BadRequestData
      else if response.statusCode == HttpInternalServerError then InternalServerError
      else UndefinedError
    else if response.text != "ok" then BadRequestData
    else Success
  }

  /** The body of the post: `{mgs_type: message, 'response_type': 'ephemeral'}`. */
  function Payload(msgType: string, message: Json): (p: Json)
    ensures p.JObject?
  {
    JObject(Put([(msgType, message)], "response_type", JString("ephemeral")))
  }

  /** The payload always asks for an ephemeral reply and, unless the message
      type is `response_type` itself, carries the message under its type. */
  lemma PayloadFields(msgType: string, message: Json)
    ensures Get(Payload(msgType, message).fields, "response_type") == Some(JString("ephemeral"))
    ensures msgType != "response_type" ==> Get(Payload(msgType, message).fields, msgType) == Some(message)
  {
    PutGet([(msgType, message)], "response_type", JString("ephemeral"), "response_type");
    PutGet([(msgType, message)], "response_type", JString("ephemeral"), msgType);
    assert Get([(msgType, message)], msgType) == Some(message);
  }

  /** What the post gives back: an answer, or an exception (a connection
      error, a time-out, a malformed URL), which nothing catches. */
  datatype PostOutcome = PostRaised | Answered(response: HttpResponse)

  /** The exception `post_ephemeral_response_message` lets escape. */
  datatype PostFault = RequestNotCaught

  /** `post_ephemeral_response_message(message, response_url, mgs_type)`,
      with the HTTP post as input: an invalid message is refused before
      anything is posted, an exception of the post escapes, otherwise the
      answer decides the code. */
  function PostEphemeralResponseMessage(message: Json, responseUrl: string, msgType: string,
                                        post: (string, Json) -> PostOutcome): (r: Result<Code, PostFault>)
    ensures r == Ok(InvalidValue) <==> !ValidateMessage(message)
    ensures ValidateMessage(message) ==>
      (post(responseUrl, Payload(msgType, message)).PostRaised? <==> r == Err(RequestNotCaught))
    ensures ValidateMessage(message) && post(responseUrl, Payload(msgType, message)).Answered? ==>
      r == Ok(ResponseCode(post(responseUrl, Payload(msgType, message)).response))
  {
    if !ValidateMessage(message) then Ok(InvalidValue)
    else
      match post(responseUrl, Payload(msgType, message))
      case PostRaised => Err(RequestNotCaught)
      case Answered(response) => Ok(ResponseCode(response))
  }
}
