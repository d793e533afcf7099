/** The response envelope every API handler returns:
    `{result, success, info: {code, message, session, ...metadata}}`. */
module Envelope {
  import opened Common

  datatype Json =
    | JNull
    | JBool(b: bool)
    | JInt(i: int)
    | JStr(s: string)
    | JList(items: seq<Json>)
    | JObject(members: map<string, Json>)

  /** The keys `wrap_result` takes by name, which its extra keyword
      arguments therefore cannot use. */
  const NamedParameters: set<string> := {"result", "success", "code", "message", "session"}

  const DefaultMessage: string := "Successfully retrieved data"

  function SessionJson(session: Option<string>): Json {
    match session
    case None => JNull
    case Some(id) => JStr(id)
  }

  /** `wrap_result(result, success=..., code=..., message=..., session=...,
      **metadata)`. */
  function WrapResult(result: Json, success: bool := true, code: int := 200, message: Json := JStr(DefaultMessage),
                      session: Option<string> := None, metadata: map<string, Json> := map[]): (r: Json)
    requires metadata.Keys !! NamedParameters
    ensures r.JObject? && r.members.Keys == {"result", "success", "info"}
    ensures r.members["info"].JObject?
    ensures r.members["info"].members.Keys == {"code", "message", "session"} + metadata.Keys
  {
    JObject(map[
      "result" := result,
      "success" := JBool(success),
      "info" := JObject(map["code" := JInt(code), "message" := message, "session" := SessionJson(session)] + metadata)
    ])
  }

  /** The parts of an envelope, as a client reads them back. */
  datatype Parts = Parts(result: Json, success: bool, code: int, message: Json, session: Option<string>, metadata: map<string, Json>)

  /** Reading an envelope: `None` for anything not shaped like one. */
  function Unwrap(j: Json): Option<Parts> {
    if !j.JObject? || j.members.Keys != {"result", "success", "info"} then None
    else
      var info := j.members["info"];
      if !j.members["success"].JBool? || !info.JObject? then None
      else
        var m := info.members;
        if "code" !in m || "message" !in m || "session" !in m then None
        else if !m["code"].JInt? || !(m["session"].JNull? || m["session"].JStr?) then None
        else
          Some(Parts(
            j.members["result"],
            j.members["success"].b,
            m["code"].i,
            m["message"],
            if m["session"].JStr? then Some(m["session"].s) else None,
            map k | k in m && k !in {"code", "message", "session"} :: m[k]))
  }

  /** Every envelope reads back as the arguments it was built from. */
  lemma UnwrapWrap(result: Json, success: bool, code: int, message: Json, session: Option<string>, metadata: map<string, Json>)
    requires metadata.Keys !! NamedParameters
    ensures Unwrap(WrapResult(result, success, code, message, session, metadata))
         == Some(Parts(result, success, code, message, session, metadata))
  {
    var info := map["code" := JInt(code), "message" := message, "session" := SessionJson(session)] + metadata;
    assert forall k :: k in metadata ==> k != "code" && k != "message" && k != "session";
    var rest := map k | k in info && k !in {"code", "message", "session"} :: info[k];
    assert rest == metadata;
  }

  /** A description as JSON: a text as a string, a list of texts as a
      list of strings. */
  function DescriptionJson(d: Description): Json {
    match d
    case Line(text) => JStr(text)
    case Lines(lines) => JList(seq(|lines|, i requires 0 <= i < |lines| => JStr(lines[i])))
  }

  /** Reading a description back from JSON, as a client does. */
  function ReadDescription(j: Json): Option<Description> {
    match j
    case JStr(text) => Some(Line(text))
    case JList(items) =>
      if forall i :: 0 <= i < |items| ==> items[i].JStr? then
        Some(Lines(seq(|items|, i requires 0 <= i < |items| && items[i].JStr? => items[i].s)))
      else None
    case _ => None
  }

  /** `handle_bad_request`: the failure envelope carrying the exception's
      code and description, and the code again as the HTTP status. The
      message is the description itself, text or list, and reads back as
      it; so a single text and a list of one text stay distinct. */
  function HandleBadRequest(code: int, description: Description): (r: (Json, int))
    ensures r.1 == code
    ensures Unwrap(r.0).Some?
    ensures var p := Unwrap(r.0).value;
      && p.result == JNull && !p.success && p.code == code && p.session.None? && p.metadata == map[]
      && ReadDescription(p.message) == Some(description)
  {
    var message := DescriptionJson(description);
    UnwrapWrap(JNull, false, code, message, None, map[]);
    assert ReadDescription(message) == Some(description) by {
      if description.Lines? {
        var items := message.items;
        assert seq(|items|, i requires 0 <= i < |items| && items[i].JStr? => items[i].s) == description.lines;
      }
    }
    (WrapResult(JNull, success := false, code := code, message := message), code)
  }

  /** A plain success envelope carries the documented defaults. */
  lemma WrapDefaults(result: Json)
    ensures Unwrap(WrapResult(result)) == Some(Parts(result, true, 200, JStr(DefaultMessage), None, map[]))
  {
    UnwrapWrap(result, true, 200, JStr(DefaultMessage), None, map[]);
  }
}
