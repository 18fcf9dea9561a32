/** `NetworkError`: how a failed request is described. */
module NetworkErrors {
  /** A JSON value as `JSONSerialization` produces it. */
  datatype JsonValue =
    | JString(s: string)
    | JNumber(n: int)
    | JBool(b: bool)
    | JNull
    | JArray(items: seq<JsonValue>)
    | JObject(fields: map<string, JsonValue>)

  /** The `JSON` dictionary type. */
  type Json = map<string, JsonValue>

  datatype NetworkError = NoInternetConnection | Custom(message: string) | Other

  /** `init(json:)`: the server's `message` when it is a string, otherwise `.other`. */
  function FromJson(json: Json): (e: NetworkError)
    ensures e.Custom? <==> "message" in json && json["message"].JString?
    ensures e.Custom? ==> e.message == json["message"].s
    ensures !e.Custom? ==> e == Other
  {
    if "message" in json && json["message"].JString? then Custom(json["message"].s) else Other
  }

  /** `errorDescription`: fixed texts, and the server's own message for `.custom`. */
  function ErrorDescription(e: NetworkError): (r: string)
    ensures e.NoInternetConnection? ==> r == "No Internet connection"
    ensures e.Other? ==> r == "Something went wrong"
    ensures e.Custom? ==> r == e.message
  {
    match e
    case NoInternetConnection => "No Internet connection"
    case Other => "Something went wrong"
    case Custom(message) => message
  }

  /** Decoding then describing gives the server's message, or "Something went wrong" without one. */
  lemma DescribeDecoded(json: Json)
    ensures ErrorDescription(FromJson(json)) ==
      if "message" in json && json["message"].JString? then json["message"].s else "Something went wrong"
  {
  }

  /** A server message that happens to read "Something went wrong" is indistinguishable from `.other` by its description. */
  lemma CustomCanMimicOther()
    ensures ErrorDescription(Custom("Something went wrong")) == ErrorDescription(Other)
    ensures Custom("Something went wrong") != Other
  {
  }
}
