/** Checking the JSON body of a create or update request against the model
    and its payload schema, before anything is written. */
module Validation {
  import opened Common

  /** What `request.get_json(silent=True)` returns: nothing (no body, a body
      that is not JSON, or the JSON `null`), a JSON value other than `null`
      that is not an object, or an object. */
  datatype Body =
    | NoJson
    | NotAnObject
    | JsonObject(members: seq<(string, Value)>)

  datatype ValidationError =
    | BadRequest(description: Description)
    | NoKeys      // AttributeError: a JSON value other than an object has no `keys`

  const QueryArgsInstead: string := "Update parameters should be passed as JSON in the request body."
  const NoParameters: string := "No update parameters found. Dids you pass valid JSON in the request body?"

  datatype Problem = NotFound(key: string) | ReadOnly(key: string)

  function Message(p: Problem): string {
    match p
    case NotFound(k) => "Attribute `" + k + "` not found on model."
    case ReadOnly(k) => "Attribute `" + k + "` is read-only."
  }

  /** The problem with one posted key: not an attribute of the model, or an
      attribute the payload schema leaves out. */
  function ProblemOf(k: string, attributes: set<string>, payload: set<string>): (p: Option<Problem>)
    ensures p.Some? ==> p.value.key == k
    ensures p == Some(NotFound(k)) <==> k !in attributes
    ensures p == Some(ReadOnly(k)) <==> k in attributes && k !in payload
  {
    if k !in attributes then Some(NotFound(k))
    else if k !in payload then Some(ReadOnly(k))
    else None
  }

  function KeysOf(members: seq<(string, Value)>): seq<string> {
    seq(|members|, i requires 0 <= i < |members| => members[i].0)
  }

  /** The problems with the posted keys, in the order of the keys. */
  function Problems(keys: seq<string>, attributes: set<string>, payload: set<string>): (ps: seq<Problem>)
    ensures |ps| <= |keys|
  {
    if keys == [] then []
    else
      var rest := Problems(keys[..|keys| - 1], attributes, payload);
      match ProblemOf(keys[|keys| - 1], attributes, payload)
      case None => rest
      case Some(p) => rest + [p]
  }

  /** Every problem belongs to a posted key, and every key with a problem
      has it reported. */
  lemma {:induction false} ProblemsComplete(keys: seq<string>, attributes: set<string>, payload: set<string>)
    ensures var ps := Problems(keys, attributes, payload);
      && (ps == [] <==> forall k | k in keys :: k in attributes && k in payload)
      && (forall p | p in ps :: p.key in keys && ProblemOf(p.key, attributes, payload) == Some(p))
      && (forall k | k in keys && ProblemOf(k, attributes, payload).Some? :: ProblemOf(k, attributes, payload).value in ps)
  {
    if keys != [] {
      var init := keys[..|keys| - 1];
      var last := keys[|keys| - 1];
      ProblemsComplete(init, attributes, payload);
      assert keys == init + [last];
      assert forall k :: k in keys <==> k in init || k == last;
    }
  }

  function Messages(ps: seq<Problem>): (ms: seq<string>)
    ensures |ms| == |ps|
  {
    if ps == [] then [] else Messages(ps[..|ps| - 1]) + [Message(ps[|ps| - 1])]
  }

  lemma {:induction false} MessagesAt(ps: seq<Problem>, j: int)
    requires 0 <= j < |ps|
    ensures Messages(ps)[j] == Message(ps[j])
    decreases |ps|
  {
    if j < |ps| - 1 {
      MessagesAt(ps[..|ps| - 1], j);
    }
  }

  /** The outcome of validating `body`: the posted object unchanged when
      every key is an attribute in the payload schema, else one `BadRequest`
      listing every problem. */
  function Validated(body: Body, hasQueryArgs: bool, attributes: set<string>, payload: set<string>)
    : (r: Result<seq<(string, Value)>, ValidationError>)
    ensures r.Success? ==> body.JsonObject? && r.value == body.members
    ensures body.NoJson? ==> r == Failure(BadRequest(Line(if hasQueryArgs then QueryArgsInstead else NoParameters)))
    ensures body.NotAnObject? ==> r == Failure(NoKeys)
    ensures body.JsonObject? && r.Failure? ==> r.error.BadRequest? && r.error.description.Lines?
  {
    match body
    case NoJson => Failure(BadRequest(Line(if hasQueryArgs then QueryArgsInstead else NoParameters)))
    case NotAnObject => Failure(NoKeys)
    case JsonObject(members) =>
      var ps := Problems(KeysOf(members), attributes, payload);
      if ps == [] then Success(members) else Failure(BadRequest(Lines(Messages(ps))))
  }

  /** `_validate_args`: the loop over the posted keys collecting every
      problem before failing. */
  method ValidateArgs(body: Body, hasQueryArgs: bool, attributes: set<string>, payload: set<string>)
    returns (r: Result<seq<(string, Value)>, ValidationError>)
    ensures r == Validated(body, hasQueryArgs, attributes, payload)
  {
    if body.NoJson? {
      if hasQueryArgs {
        return Failure(BadRequest(Line(QueryArgsInstead)));
      }
      return Failure(BadRequest(Line(NoParameters)));
    }
    if body.NotAnObject? {
      return Failure(NoKeys);
    }
    var members := body.members;
    var errors: seq<string> := [];
    ghost var problems: seq<Problem> := [];
    var i := 0;
    while i < |members|
      invariant 0 <= i <= |members|
      invariant problems == Problems(KeysOf(members)[..i], attributes, payload)
      invariant errors == Messages(problems)
    {
      var key := members[i].0;
      assert KeysOf(members)[..i + 1][..i] == KeysOf(members)[..i];
      ghost var before := problems;
      if key !in attributes {
        errors := errors + [Message(NotFound(key))];
        problems := problems + [NotFound(key)];
        assert problems[..|problems| - 1] == before;
      } else if key !in payload {
        errors := errors + [Message(ReadOnly(key))];
        problems := problems + [ReadOnly(key)];
        assert problems[..|problems| - 1] == before;
      }
      i := i + 1;
    }
    assert KeysOf(members)[..i] == KeysOf(members);
    if errors != [] {
      return Failure(BadRequest(Lines(errors)));
    }
    return Success(members);
  }

  /** A body is accepted exactly when it is an object whose every key is an
      attribute of the model in the payload schema, and an accepted body is
      returned unchanged. */
  lemma AcceptedExactly(body: Body, hasQueryArgs: bool, attributes: set<string>, payload: set<string>)
    requires body.JsonObject?
    ensures var r := Validated(body, hasQueryArgs, attributes, payload);
      && (r.Success? <==> forall i | 0 <= i < |body.members| :: body.members[i].0 in attributes && body.members[i].0 in payload)
      && (r.Success? ==> r.value == body.members)
      && (r.Failure? ==> r.error.BadRequest? && r.error.description.Lines?)
      && (r.Failure? ==> forall i | 0 <= i < |body.members| && body.members[i].0 !in attributes ::
            Message(NotFound(body.members[i].0)) in r.error.description.lines)
      && (r.Failure? ==> forall i | 0 <= i < |body.members| && body.members[i].0 in attributes && body.members[i].0 !in payload ::
            Message(ReadOnly(body.members[i].0)) in r.error.description.lines)
  {
    var r := Validated(body, hasQueryArgs, attributes, payload);
    var keys := KeysOf(body.members);
    var ps := Problems(keys, attributes, payload);
    ProblemsComplete(keys, attributes, payload);
    assert forall i | 0 <= i < |body.members| :: keys[i] == body.members[i].0 && keys[i] in keys;
    if r.Failure? {
      forall i | 0 <= i < |body.members| && body.members[i].0 !in attributes
        ensures Message(NotFound(body.members[i].0)) in r.error.description.lines
      {
        var k := keys[i];
        assert ProblemOf(k, attributes, payload) == Some(NotFound(k));
        var j :| 0 <= j < |ps| && ps[j] == NotFound(k);
        MessagesAt(ps, j);
      }
      forall i | 0 <= i < |body.members| && body.members[i].0 in attributes && body.members[i].0 !in payload
        ensures Message(ReadOnly(body.members[i].0)) in r.error.description.lines
      {
        var k := keys[i];
        assert ProblemOf(k, attributes, payload) == Some(ReadOnly(k));
        var j :| 0 <= j < |ps| && ps[j] == ReadOnly(k);
        MessagesAt(ps, j);
      }
    }
  }
}
