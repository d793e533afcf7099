/** How the create (`List.post`) and update (`One.post`) handlers turn what
    goes wrong while writing a record into an HTTP error: the rewrite of a
    unique-constraint violation, and the routing of every other failure. */
module Conflicts {
  import opened Common

  // ---------------------------------------------------------------------
  // re.findall(r'\((.*?)\)', s)

  /** The index of the first `)` or line break in `s`: where the lazy group
      `(.*?)` of a match starting just before `s` must stop. */
  function StopAt(s: string): (r: Option<nat>)
    ensures r.Some? ==> r.value < |s| && (s[r.value] == ')' || s[r.value] == '\n')
    ensures r.Some? ==> forall i | 0 <= i < r.value :: s[i] != ')' && s[i] != '\n'
    ensures r.None? ==> forall i | 0 <= i < |s| :: s[i] != ')' && s[i] != '\n'
  {
    if s == [] then None
    else if s[0] == ')' || s[0] == '\n' then Some(0)
    else match StopAt(s[1..])
      case None => None
      case Some(j) => Some(j + 1)
  }

  /** The texts between each `(` and the first `)` after it, scanning left
      to right without overlaps; `.` does not match a line break, so a `(`
      whose next stop is a line break starts no match. */
  function FindAllParens(s: string): (r: seq<string>)
    ensures forall g :: g in r ==> Plain(g)
    ensures 2 * |r| <= |s|
    decreases |s|
  {
    if s == [] then []
    else if s[0] != '(' then FindAllParens(s[1..])
    else
      var rest := s[1..];
      var stop := StopAt(rest);
      if stop.Some? && rest[stop.value] == ')' then [rest[..stop.value]] + FindAllParens(rest[stop.value + 1..])
      else FindAllParens(rest)
  }

  /** Text that can sit inside one parenthesised group. */
  predicate Plain(s: string) {
    forall i | 0 <= i < |s| :: s[i] != ')' && s[i] != '\n'
  }

  lemma {:induction false} SkipPrefix(p: string, s: string)
    requires '(' !in p
    ensures FindAllParens(p + s) == FindAllParens(s)
    decreases |p|
  {
    if p != [] {
      assert (p + s)[0] == p[0] && p[0] != '(';
      assert (p + s)[1..] == p[1..] + s;
      assert FindAllParens(p + s) == FindAllParens((p + s)[1..]);
      assert p == [p[0]] + p[1..];
      SkipPrefix(p[1..], s);
    } else {
      assert p + s == s;
    }
  }

  lemma OneGroup(k: string, s: string)
    requires Plain(k)
    ensures FindAllParens("(" + k + ")" + s) == [k] + FindAllParens(s)
  {
    var whole := "(" + k + ")" + s;
    var rest := k + ")" + s;
    assert whole[1..] == rest;
    assert rest[|k|] == ')';
    assert StopAt(rest) == Some(|k|) by {
      StopAtFirst(rest, |k|);
    }
    assert rest[..|k|] == k;
    assert rest[|k| + 1..] == s;
  }

  lemma StopAtFirst(s: string, j: nat)
    requires j < |s| && s[j] == ')'
    requires forall i | 0 <= i < j :: s[i] != ')' && s[i] != '\n'
    ensures StopAt(s) == Some(j)
  {
  }

  // ---------------------------------------------------------------------
  // The unique-violation rewrite

  /** What the storage driver reports when a write breaks an integrity
      constraint: a unique violation carries the driver's detail text. */
  datatype IntegrityError = UniqueViolation(detail: string) | OtherIntegrity

  datatype Raised =
    | BadRequestRaised(description: string)
    | ConflictRaised(description: string)
    | NotFoundRaised(description: string)
    | ValueErrorRaised(text: string)
    | OtherRaised(typeName: string, text: string)

  datatype Rewrite =
    | Raise(e: Raised)          // the handler raises this instead
    | Reraise                   // the integrity error itself propagates

  function ConflictMessage(key: string, value: string): string {
    "The \"" + key + "\" value must be unique, and another record with \"" + key + "\" = \"" + value + "\" already exists."
  }

  /** The driver's detail for a duplicate key. */
  function DuplicateDetail(key: string, value: string): string {
    "Key (" + key + ")=(" + value + ") already exists."
  }

  /** The `except IntegrityError` branch: a unique violation always becomes
      `Conflict`, with the key and value named when the detail has the
      driver's duplicate-key shape; unpacking other than exactly two groups
      raises `ValueError`; any other integrity error propagates. */
  function RewriteIntegrityError(e: IntegrityError): (r: Rewrite)
    ensures r == Reraise <==> e.OtherIntegrity?
    ensures e.UniqueViolation? && !(StartsWith(e.detail, "Key (") && EndsWith(e.detail, " already exists.")) ==>
      r == Raise(ConflictRaised(e.detail))
    ensures r.Raise? ==> r.e.ConflictRaised? || r.e.ValueErrorRaised?
    ensures e.UniqueViolation? && StartsWith(e.detail, "Key (") && EndsWith(e.detail, " already exists.") ==>
      var groups := FindAllParens(e.detail);
      && (|groups| == 2 ==> r == Raise(ConflictRaised(ConflictMessage(groups[0], groups[1]))))
      && (|groups| != 2 ==> r.Raise? && r.e.ValueErrorRaised?)
  {
    match e
    case OtherIntegrity => Reraise
    case UniqueViolation(detail) =>
      if StartsWith(detail, "Key (") && EndsWith(detail, " already exists.") then
        var groups := FindAllParens(detail);
        if |groups| == 2 then Raise(ConflictRaised(ConflictMessage(groups[0], groups[1])))
        else if |groups| < 2 then Raise(ValueErrorRaised("not enough values to unpack (expected 2, got " + NatToDecimal(|groups|) + ")"))
        else Raise(ValueErrorRaised("too many values to unpack (expected 2)"))
      else Raise(ConflictRaised(detail))
  }

  /** Two groups separated by text without `(` are found in order. */
  lemma TwoGroups(pre: string, k: string, mid: string, v: string, post: string)
    requires '(' !in pre && '(' !in mid && '(' !in post && Plain(k) && Plain(v)
    ensures FindAllParens(pre + ("(" + k + ")" + (mid + ("(" + v + ")" + post)))) == [k, v]
  {
    var second := "(" + v + ")" + post;
    SkipPrefix(pre, "(" + k + ")" + (mid + second));
    OneGroup(k, mid + second);
    SkipPrefix(mid, second);
    OneGroup(v, post);
    SkipPrefix(post, []);
    assert post + [] == post;
  }

  /** The two groups of a duplicate-key detail are its key and value. */
  lemma DuplicateGroups(key: string, value: string)
    requires Plain(key) && Plain(value)
    ensures FindAllParens(DuplicateDetail(key, value)) == [key, value]
  {
    var tail := " already exists.";
    assert DuplicateDetail(key, value) == "Key " + ("(" + key + ")" + ("=" + ("(" + value + ")" + tail)));
    TwoGroups("Key ", key, "=", value, tail);
  }

  lemma DuplicateShape(key: string, value: string)
    ensures StartsWith(DuplicateDetail(key, value), "Key (")
    ensures EndsWith(DuplicateDetail(key, value), " already exists.")
  {
    var tail := " already exists.";
    var d := DuplicateDetail(key, value);
    assert d == "Key (" + (key + ")=(" + value + ")") + tail;
    assert d[..5] == "Key (";
    assert d[|d| - |tail|..] == tail;
  }

  /** A duplicate-key detail whose key and value hold no `)` and no line
      break is rewritten to name that key and value. */
  lemma DuplicateKeyRewritten(key: string, value: string)
    requires Plain(key) && Plain(value)
    ensures RewriteIntegrityError(UniqueViolation(DuplicateDetail(key, value))) == Raise(ConflictRaised(ConflictMessage(key, value)))
  {
    DuplicateGroups(key, value);
    DuplicateShape(key, value);
  }

  // ---------------------------------------------------------------------
  // Routing what the handlers raise

  datatype Handler = CreateRecord | UpdateRecord

  datatype HttpError = HttpError(code: int, description: string)

  function TypeName(e: Raised): string {
    match e
    case BadRequestRaised(_) => "BadRequest"
    case ConflictRaised(_) => "Conflict"
    case NotFoundRaised(_) => "NotFound"
    case ValueErrorRaised(_) => "ValueError"
    case OtherRaised(t, _) => t
  }

  /** `str(e)`: a werkzeug error prints its code and name before its
      description. */
  function Text(e: Raised): string {
    match e
    case BadRequestRaised(d) => "400 Bad Request: " + d
    case ConflictRaised(d) => "409 Conflict: " + d
    case NotFoundRaised(d) => "404 Not Found: " + d
    case ValueErrorRaised(t) => t
    case OtherRaised(_, t) => t
  }

  function Unexpected(e: Raised): HttpError {
    HttpError(500, "Unexpected error occurred: " + TypeName(e) + " " + Text(e))
  }

  /** The handlers' `except` clauses as written: both let `BadRequest` and
      `Conflict` through; only the update handler turns `ValueError` into
      `BadRequest`; everything else, `NotFound` included, becomes an
      internal error. */
  function RouteAsWritten(h: Handler, e: Raised): (r: HttpError)
    ensures r.code in {400, 409, 500}
    ensures e.NotFoundRaised? ==> r.code == 500
    ensures e.ValueErrorRaised? ==> r.code == (if h == UpdateRecord then 400 else 500)
  {
    match e
    case BadRequestRaised(d) => HttpError(400, d)
    case ConflictRaised(d) => HttpError(409, d)
    case ValueErrorRaised(t) => if h == UpdateRecord then HttpError(400, t) else Unexpected(e)
    case _ => Unexpected(e)
  }

  /** The routing the error policy describes: validation failures
      (`BadRequest`, and `ValueError` for unresolvable related records) are
      400, a missing record 404, a conflict 409, and only what is
      unexpected 500 — the same for both handlers. */
  function Route(h: Handler, e: Raised): (r: HttpError)
    ensures r.code in {400, 404, 409, 500}
    ensures r.code == 500 <==> e.OtherRaised?
    ensures !e.OtherRaised? ==> r.description == (if e.ValueErrorRaised? then e.text else e.description)
  {
    match e
    case BadRequestRaised(d) => HttpError(400, d)
    case ConflictRaised(d) => HttpError(409, d)
    case NotFoundRaised(d) => HttpError(404, d)
    case ValueErrorRaised(t) => HttpError(400, t)
    case OtherRaised(_, _) => Unexpected(e)
  }

  /** The update handler looks the record up and raises `NotFound` when it
      is missing. */
  function RecordNotFound(id: int): Raised {
    NotFoundRaised("Record with ID `" + ToDecimal(id) + "` not found")
  }

  /** Where the handlers as written part from the policy: exactly on
      `NotFound` (which only the update handler raises, for a missing
      record) and on a `ValueError` in the create handler. */
  lemma {:induction false} RoutingDiffers(h: Handler, e: Raised)
    ensures RouteAsWritten(h, e) != Route(h, e) <==>
      e.NotFoundRaised? || (h == CreateRecord && e.ValueErrorRaised?)
  {
    match e
    case NotFoundRaised(_) =>
      assert RouteAsWritten(h, e).code == 500;
    case ValueErrorRaised(_) =>
      if h == CreateRecord {
        assert RouteAsWritten(h, e).code == 500;
      }
    case _ =>
  }

  /** Updating a record that does not exist answers 500 as written, and 404
      with the lookup's own message under the policy. */
  lemma MissingRecordOnUpdate()
    ensures RouteAsWritten(UpdateRecord, RecordNotFound(7)).code == 500
    ensures Route(UpdateRecord, RecordNotFound(7)) == HttpError(404, "Record with ID `7` not found")
  {
    assert ToDecimal(7) == "7";
  }

  /** Creating a record that names a related id that does not exist answers
      500 as written, and 400 with the ingest message under the policy. */
  lemma MissingRelatedOnCreate(message: string)
    ensures RouteAsWritten(CreateRecord, ValueErrorRaised(message)).code == 500
    ensures Route(CreateRecord, ValueErrorRaised(message)) == HttpError(400, message)
  {
  }
}
