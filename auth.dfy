/** The authorization gate: access levels are integers where a lower number
    is more privileged, the credential arrives as an optional header string,
    and a gated handler runs only when the credential's level is at most the
    level the route requires. */
module Auth {
  import opened Common

  const AuthSuper: int := 0
  const AuthEditor: int := 1
  const AuthViewer: int := 2

  /** `int(actual)` raised ValueError on a credential that is not an integer. */
  datatype CheckError = NotAnInteger(credential: string)

  /** `check_auth_level(required, actual)`: a missing credential is denied;
      otherwise the credential is converted with `int()` (which may raise)
      and compared with `<=`. */
  function CheckAuthLevel(required: int, actual: Option<string>): (r: Result<bool, CheckError>)
    ensures actual.None? ==> r == Success(false)
    ensures actual.Some? && ParseInt(actual.value).None? ==> r == Failure(NotAnInteger(actual.value))
    ensures r == Success(true) <==> actual.Some? && exists level :: ParseInt(actual.value) == Some(level) && level <= required
  {
    match actual
    case None => Success(false)
    case Some(text) =>
      match ParseInt(text)
      case None => Failure(NotAnInteger(text))
      case Some(level) => Success(level <= required)
  }

  /** A credential carrying the decimal rendering of `level` passes exactly
      the gates whose required level is at least `level`. */
  lemma DecimalCredential(required: int, level: int)
    ensures CheckAuthLevel(required, Some(ToDecimal(level))) == Success(level <= required)
  {
    ParseIntToDecimal(level);
  }

  /** Passing a gate implies passing every less demanding gate. */
  lemma Monotonic(required: int, weaker: int, actual: Option<string>)
    requires CheckAuthLevel(required, actual) == Success(true)
    requires required <= weaker
    ensures CheckAuthLevel(weaker, actual) == Success(true)
  {
  }

  /** A super-user credential ("0") passes every route of the system. */
  lemma SuperPassesEveryRoute(route: Route)
    ensures CheckAuthLevel(RequiredLevel(route), Some("0")) == Success(true)
  {
    DecimalCredential(RequiredLevel(route), AuthSuper);
    assert ToDecimal(AuthSuper) == "0";
  }

  /** What a gated call produced: the handler's value, an Unauthorized
      error raised before the handler ran, or the ValueError of `int()`. */
  datatype Gated<R> =
    | Ran(value: R)
    | Unauthorized(message: string)
    | CredentialError(error: CheckError)

  /** `require_auth(level)(handler)(args)`: the handler is called only when
      the check passes. */
  function RequireAuth<A, R>(level: int, credential: Option<string>, handler: A -> R, args: A): (r: Gated<R>)
    ensures r.Ran? <==> CheckAuthLevel(level, credential) == Success(true)
    ensures r.Ran? ==> r.value == handler(args)
    ensures r.Unauthorized? <==> CheckAuthLevel(level, credential) == Success(false)
    ensures r.Unauthorized? ==> r.message == "Access level insufficient"
  {
    match CheckAuthLevel(level, credential)
    case Failure(e) => CredentialError(e)
    case Success(ok) => if ok then Ran(handler(args)) else Unauthorized("Access level insufficient")
  }

  /** The routes the generator wires, and the level each one demands. */
  datatype Route =
    | ListRecords | ListDetailed | GetOne | CustomQuery
    | CreateRecord | UpdateRecord | DeleteRecord
    | NewSession | SaveSession | RollbackSession

  function RequiredLevel(route: Route): int {
    match route
    case ListRecords | ListDetailed | GetOne | CustomQuery => AuthViewer
    case CreateRecord | UpdateRecord | NewSession | SaveSession | RollbackSession => AuthEditor
    case DeleteRecord => AuthSuper
  }

  /** Only a super-user credential may delete: any credential that passes
      the delete gate carries level 0 or below. */
  lemma OnlySuperDeletes(actual: Option<string>)
    requires CheckAuthLevel(RequiredLevel(DeleteRecord), actual) == Success(true)
    ensures actual.Some? && ParseInt(actual.value).Some? && ParseInt(actual.value).value <= AuthSuper
  {
    assert RequiredLevel(DeleteRecord) == AuthSuper;
    var text := actual.value;
    var parsed := ParseInt(text);
    assert CheckAuthLevel(AuthSuper, Some(text)) == if parsed.None? then Failure(NotAnInteger(text)) else Success(parsed.value <= AuthSuper);
  }

  /** A viewer credential reaches every read route and no write route. */
  lemma {:induction false} ViewerReach(route: Route)
    ensures CheckAuthLevel(RequiredLevel(route), Some(ToDecimal(AuthViewer))) == Success(true)
        <==> route in {ListRecords, ListDetailed, GetOne, CustomQuery}
  {
    DecimalCredential(RequiredLevel(route), AuthViewer);
  }
}
