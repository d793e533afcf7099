/** Parameters of the list endpoints: pagination, sorting and filters.

    Request arguments are ordered dictionaries: query-string values are
    text; route arguments (from URL converters such as `<int:id>`) may be
    numbers. */
module Listing {
  import opened Common

  const MaxPageSize: int := 1000
  const DefaultPage: int := 1
  const DefaultPageLength: int := 100

  datatype Arg = Text(s: string) | Number(n: int)

  type Args = seq<(string, Arg)>

  /** The value of the first entry named `k`. */
  function Lookup(a: Args, k: string): Option<Arg> {
    if a == [] then None
    else if a[0].0 == k then Some(a[0].1)
    else Lookup(a[1..], k)
  }

  /** The first of two optional values that is present. */
  function Either(a: Option<Arg>, b: Option<Arg>): Option<Arg> {
    if a.Some? then a else b
  }

  /** The entries not named `k`: `dict.pop(k)` on the arguments. */
  function Remove(a: Args, k: string): (r: Args)
    ensures Lookup(r, k).None?
    ensures forall k' :: k' != k ==> Lookup(r, k') == Lookup(a, k')
    ensures |r| <= |a|
  {
    if a == [] then []
    else if a[0].0 == k then Remove(a[1..], k)
    else [a[0]] + Remove(a[1..], k)
  }

  /** The entries of `b` whose names `a` does not hold. */
  function Extra(b: Args, a: Args): Args {
    if b == [] then []
    else (if Lookup(a, b[0].0).None? then [b[0]] else []) + Extra(b[1..], a)
  }

  /** `a` with every value that `b` also names taken from `b`. */
  function Replaced(a: Args, b: Args): Args {
    if a == [] then []
    else [(a[0].0, Lookup(b, a[0].0).GetOr(a[0].1))] + Replaced(a[1..], b)
  }

  /** `{**a, **b}`: the keys of `a` in their order, then the new keys of
      `b`; a key in both has `b`'s value. */
  function Overlay(a: Args, b: Args): (r: Args)
    ensures forall k {:trigger Lookup(r, k)} :: Lookup(r, k) == if Lookup(b, k).Some? then Lookup(b, k) else Lookup(a, k)
  {
    var r := Replaced(a, b) + Extra(b, a);
    assert forall k :: Lookup(r, k) == if Lookup(b, k).Some? then Lookup(b, k) else Lookup(a, k) by {
      forall k ensures Lookup(r, k) == if Lookup(b, k).Some? then Lookup(b, k) else Lookup(a, k) {
        LookupAppend(Replaced(a, b), Extra(b, a), k);
        LookupReplaced(a, b, k);
        LookupExtra(b, a, k);
      }
    }
    r
  }

  lemma {:induction false} LookupAppend(x: Args, y: Args, k: string)
    ensures Lookup(x + y, k) == if Lookup(x, k).Some? then Lookup(x, k) else Lookup(y, k)
    decreases |x|
  {
    if x != [] {
      assert (x + y)[0] == x[0];
      assert (x + y)[1..] == x[1..] + y;
      LookupAppend(x[1..], y, k);
    } else {
      assert x + y == y;
    }
  }

  lemma LookupAppendAll(x: Args, y: Args)
    ensures forall k :: Lookup(x + y, k) == if Lookup(x, k).Some? then Lookup(x, k) else Lookup(y, k)
  {
    forall k ensures Lookup(x + y, k) == if Lookup(x, k).Some? then Lookup(x, k) else Lookup(y, k) {
      LookupAppend(x, y, k);
    }
  }

  lemma {:induction false} LookupReplaced(a: Args, b: Args, k: string)
    ensures Lookup(Replaced(a, b), k) ==
      if Lookup(a, k).Some? then Some(Lookup(b, k).GetOr(Lookup(a, k).value)) else None
    decreases |a|
  {
    if a != [] {
      LookupReplaced(a[1..], b, k);
    }
  }

  lemma {:induction false} LookupExtra(b: Args, a: Args, k: string)
    ensures Lookup(Extra(b, a), k) == if Lookup(a, k).None? then Lookup(b, k) else None
    decreases |b|
  {
    if b != [] {
      LookupExtra(b[1..], a, k);
      var head: Args := if Lookup(a, b[0].0).None? then [b[0]] else [];
      LookupAppend(head, Extra(b[1..], a), k);
    }
  }

  /** `int(value)`: a number as is, text as Python parses it. */
  function ToInt(v: Arg): Option<int> {
    match v
    case Number(n) => Some(n)
    case Text(s) => ParseInt(s)
  }

  function Min(a: int, b: int): int {
    if a <= b then a else b
  }

  // ---------------------------------------------------------------------
  // Pagination

  const PaginationMessage: string :=
    "Invalid pagination parameter! `_page` and `_pagelength` (if provided) must be integers."

  datatype Paging = Paging(page: int, pageLength: int, rest: Args)

  /** Pop `_page` (default 1) and `_pagelength` (default 100, capped at
      the maximum page size); a value that is not an integer is a bad
      request. */
  function ParsePaging(args: Args): (r: Result<Paging, string>)
    ensures r.Failure? ==> r.error == PaginationMessage
    ensures r.Failure? <==>
      (Lookup(args, "_page").Some? && ToInt(Lookup(args, "_page").value).None?) ||
      (Lookup(args, "_pagelength").Some? && ToInt(Lookup(args, "_pagelength").value).None?)
    ensures r.Success? ==> r.value.pageLength <= MaxPageSize
    ensures r.Success? && Lookup(args, "_page").None? ==> r.value.page == DefaultPage
    ensures r.Success? && Lookup(args, "_pagelength").None? ==> r.value.pageLength == DefaultPageLength
    ensures r.Success? && Lookup(args, "_page").Some? ==> Some(r.value.page) == ToInt(Lookup(args, "_page").value)
    ensures r.Success? && Lookup(args, "_pagelength").Some? ==>
      r.value.pageLength == Min(ToInt(Lookup(args, "_pagelength").value).value, MaxPageSize)
    ensures r.Success? ==> Lookup(r.value.rest, "_page").None? && Lookup(r.value.rest, "_pagelength").None?
    ensures r.Success? ==> forall k :: k != "_page" && k != "_pagelength" ==> Lookup(r.value.rest, k) == Lookup(args, k)
  {
    var page := ToInt(Lookup(args, "_page").GetOr(Number(DefaultPage)));
    if page.None? then Failure(PaginationMessage)
    else
      var length := ToInt(Lookup(args, "_pagelength").GetOr(Number(DefaultPageLength)));
      if length.None? then Failure(PaginationMessage)
      else Success(Paging(page.value, Min(length.value, MaxPageSize), Remove(Remove(args, "_page"), "_pagelength")))
  }

  // ---------------------------------------------------------------------
  // Filters

  datatype Filter =
    | RelationHasId(relation: string, id: Arg) // the related record's id equals the value
    | AttrEquals(attr: string, value: Arg)     // the attribute equals the value

  function NotFoundMessage(attr: string): string {
    "Attribute `" + attr + "` not found"
  }

  /** The model attribute an argument filters on: the relation a
      queryable alias names, else the argument's own name. */
  function Target(key: string, queryable: map<string, string>): string {
    if key in queryable then queryable[key] else key
  }

  datatype Classified = Classified(filters: seq<Filter>, errors: seq<string>)

  /** Each argument becomes a filter on its target, or, when the model has
      no such attribute, an error naming the target. */
  function Classify(args: Args, queryable: map<string, string>, attributes: set<string>): (c: Classified)
    ensures |c.filters| + |c.errors| == |args|
    ensures c.errors == [] <==> forall i :: 0 <= i < |args| ==> Target(args[i].0, queryable) in attributes
    decreases |args|
  {
    if args == [] then Classified([], [])
    else
      var (key, value) := args[0];
      var rest := Classify(args[1..], queryable, attributes);
      assert forall i :: 1 <= i < |args| ==> args[i] == args[1..][i - 1];
      var target := Target(key, queryable);
      if target !in attributes then Classified(rest.filters, [NotFoundMessage(target)] + rest.errors)
      else if key in queryable then Classified([RelationHasId(target, value)] + rest.filters, rest.errors)
      else Classified([AttrEquals(target, value)] + rest.filters, rest.errors)
  }

  /** `e` is the error for some argument whose target is not an
      attribute. */
  predicate ReportsUnknown(e: string, args: Args, queryable: map<string, string>, attributes: set<string>) {
    exists i :: 0 <= i < |args| && Target(args[i].0, queryable) !in attributes
              && e == NotFoundMessage(Target(args[i].0, queryable))
  }

  /** Every error names an argument whose target is not an attribute, and
      every filter is on an attribute of the model. */
  lemma {:induction false} ClassifyNames(args: Args, queryable: map<string, string>, attributes: set<string>)
    ensures var c := Classify(args, queryable, attributes);
      && (forall e :: e in c.errors ==> ReportsUnknown(e, args, queryable, attributes))
      && (forall f :: f in c.filters ==> (if f.RelationHasId? then f.relation else f.attr) in attributes)
    decreases |args|
  {
    if args != [] {
      ClassifyNames(args[1..], queryable, attributes);
      var rest := Classify(args[1..], queryable, attributes);
      forall e | ReportsUnknown(e, args[1..], queryable, attributes)
        ensures ReportsUnknown(e, args, queryable, attributes)
      {
        var i :| 0 <= i < |args[1..]| && Target(args[1..][i].0, queryable) !in attributes
               && e == NotFoundMessage(Target(args[1..][i].0, queryable));
        assert args[i + 1] == args[1..][i];
      }
      assert ReportsUnknown(NotFoundMessage(Target(args[0].0, queryable)), args, queryable, attributes)
        <== Target(args[0].0, queryable) !in attributes;
    }
  }

  /** The filter loop of the list handler: keys are classified in order
      and the unknown ones collected. */
  method ClassifyFilters(args: Args, queryable: map<string, string>, attributes: set<string>)
    returns (filters: seq<Filter>, errors: seq<string>)
    ensures Classified(filters, errors) == Classify(args, queryable, attributes)
  {
    filters, errors := [], [];
    var i := |args|;
    // The specification is built from the back: walk backwards, prepending.
    while i > 0
      invariant 0 <= i <= |args|
      invariant Classified(filters, errors) == Classify(args[i..], queryable, attributes)
      decreases i
    {
      i := i - 1;
      assert args[i..][1..] == args[i + 1..];
      var (key, value) := args[i];
      var target := if key in queryable then queryable[key] else key;
      if target !in attributes {
        errors := [NotFoundMessage(target)] + errors;
      } else if key in queryable {
        filters := [RelationHasId(target, value)] + filters;
      } else {
        filters := [AttrEquals(target, value)] + filters;
      }
    }
  }

  // ---------------------------------------------------------------------
  // The list request as a whole

  /** The control arguments, removed before filtering. */
  const ControlKeys: seq<string> := ["_page", "_pagelength", "_sortby", "_query", "_sort_asc", "_session"]

  /** `session_manager.get(usr_session_id)`, as the list handler calls it:
      no id opens a new session; an id must name a session that is open
      once the manager has swept its idle sessions (`open`), or the
      manager raises ValueError. */
  predicate SessionKnown(id: Option<Arg>, open: set<string>) {
    id.None? || (id.value.Text? && id.value.s in open)
  }

  datatype ListRequest = ListRequest(
    page: int,
    pageLength: int,
    sortBy: string,
    search: Option<Arg>,
    session: Option<Arg>,
    filters: seq<Filter>)

  datatype RequestError =
    | BadRequest(description: Description)
    | SortKeyNotAName        // `hasattr` given a number raises TypeError
    | UnknownSession(id: Arg) // ValueError from the session manager

  function SortByMessage(key: string): string {
    "Invalid sort-by parameter! `" + key + "` is not a valid model attribute. False"
  }

  function RemoveAll(a: Args, keys: seq<string>): (r: Args)
    ensures forall k :: k in keys ==> Lookup(r, k).None?
    ensures forall k :: k !in keys ==> Lookup(r, k) == Lookup(a, k)
    decreases |keys|
  {
    if keys == [] then a else RemoveAll(Remove(a, keys[0]), keys[1..])
  }

  /** The parameter handling of `handle_paginated_request`: the route's
      arguments overlaid with the query string, pagination, the sort key,
      the session lookup, then one filter per remaining argument or one bad
      request listing every unknown one. `open` holds the sessions open
      after the manager's sweep. */
  function ParseListRequest(routeArgs: Args, queryArgs: Args, queryable: map<string, string>, attributes: set<string>,
                            open: set<string>)
    : (r: Result<ListRequest, RequestError>)
    ensures var args := Overlay(routeArgs, queryArgs);
      var sortBy := Lookup(args, "_sortby").GetOr(Text("id"));
      var session := Lookup(args, "_session");
      var c := Classify(RemoveAll(args, ControlKeys), queryable, attributes);
      && (ParsePaging(args).Failure? ==> r == Failure(BadRequest(Line(PaginationMessage))))
      && (ParsePaging(args).Success? && sortBy.Number? ==> r == Failure(SortKeyNotAName))
      && (ParsePaging(args).Success? && sortBy.Text? && sortBy.s !in attributes ==>
            r == Failure(BadRequest(Line(SortByMessage(sortBy.s)))))
      && (ParsePaging(args).Success? && sortBy.Text? && sortBy.s in attributes && !SessionKnown(session, open) ==>
            r == Failure(UnknownSession(session.value)))
      && (ParsePaging(args).Success? && sortBy.Text? && sortBy.s in attributes && SessionKnown(session, open) ==>
            && (r.Success? <==> c.errors == [])
            && (r.Failure? ==> r == Failure(BadRequest(Lines(c.errors)))))
      && (r.Success? ==>
            && r.value.page == ParsePaging(args).value.page
            && r.value.pageLength == ParsePaging(args).value.pageLength
            && Some(Text(r.value.sortBy)) == Some(sortBy)
            && r.value.sortBy in attributes
            && r.value.search == Lookup(args, "_query")
            && r.value.session == session
            && r.value.filters == c.filters)
  {
    var args := Overlay(routeArgs, queryArgs);
    match ParsePaging(args)
    case Failure(m) => Failure(BadRequest(Line(m)))
    case Success(paging) =>
      var sortBy := Lookup(args, "_sortby").GetOr(Text("id"));
      if sortBy.Number? then Failure(SortKeyNotAName)
      else if sortBy.s !in attributes then Failure(BadRequest(Line(SortByMessage(sortBy.s))))
      else
        var session := Lookup(args, "_session");
        if !SessionKnown(session, open) then Failure(UnknownSession(session.value))
        else
          var c := Classify(RemoveAll(args, ControlKeys), queryable, attributes);
          if c.errors != [] then Failure(BadRequest(Lines(c.errors)))
          else Success(ListRequest(paging.page, paging.pageLength, sortBy.s,
                                   Lookup(args, "_query"), session, c.filters))
  }

  /** The query string decides every parameter it names: a page size the
      query string gives as text that `int()` reads as `n` is the one used,
      whatever page size the route gives. */
  lemma QueryStringWins(routeArgs: Args, queryArgs: Args, s: string, n: int)
    requires Lookup(queryArgs, "_pagelength") == Some(Text(s)) && ParseInt(s) == Some(n)
    requires Lookup(queryArgs, "_page").None? && Lookup(routeArgs, "_page").None?
    ensures ParsePaging(Overlay(routeArgs, queryArgs)).Success?
    ensures ParsePaging(Overlay(routeArgs, queryArgs)).value.pageLength == Min(n, MaxPageSize)
    ensures ParsePaging(Overlay(routeArgs, queryArgs)).value.page == DefaultPage
  {
    OverlayPaging(routeArgs, queryArgs, s);
    assert ToInt(Text(s)) == Some(n);
  }

  /** Neither argument set gives a page, and the query string gives the
      page size. */
  lemma OverlayPaging(routeArgs: Args, queryArgs: Args, s: string)
    requires Lookup(queryArgs, "_pagelength") == Some(Text(s))
    requires Lookup(queryArgs, "_page").None? && Lookup(routeArgs, "_page").None?
    ensures Lookup(Overlay(routeArgs, queryArgs), "_page").None?
    ensures Lookup(Overlay(routeArgs, queryArgs), "_pagelength") == Some(Text(s))
  {
  }

  // ---------------------------------------------------------------------
  // Custom query endpoints

  datatype CustomCall = CustomCall(page: int, pageLength: int, callArgs: Args)

  datatype CustomError =
    | BadPaging(message: string)
    | DuplicateArgument(key: string) // TypeError: the route and the query string name the same argument

  /** An entry of `a` carries every name `a` gives a value. */
  lemma {:induction false} LookupIndex(a: Args, k: string) returns (i: nat)
    requires Lookup(a, k).Some?
    ensures i < |a| && a[i].0 == k
    decreases |a|
  {
    if a[0].0 == k {
      i := 0;
    } else {
      var j := LookupIndex(a[1..], k);
      i := j + 1;
    }
  }

  /** The first name of `a` that `b` also gives, if any. */
  function FirstShared(a: Args, b: Args): (r: Option<string>)
    ensures r.Some? ==> Lookup(a, r.value).Some? && Lookup(b, r.value).Some?
    ensures r.None? ==> forall i :: 0 <= i < |a| ==> Lookup(b, a[i].0).None?
  {
    if a == [] then None
    else if Lookup(b, a[0].0).Some? then
      assert a[0].0 == a[0].0;
      Some(a[0].0)
    else
      assert forall i :: 1 <= i < |a| ==> a[i] == a[1..][i - 1];
      FirstShared(a[1..], b)
  }

  /** The `get` of a custom query endpoint: pagination as for lists, from
      the query string only; the route's arguments and the rest of the
      query string are passed on together, and a name given by both is a
      TypeError. */
  function CustomQueryCall(routeArgs: Args, queryArgs: Args): (r: Result<CustomCall, CustomError>)
    ensures ParsePaging(queryArgs).Failure? ==> r == Failure(BadPaging(PaginationMessage))
    ensures ParsePaging(queryArgs).Success? ==>
      (r.Failure? <==> exists k :: Lookup(routeArgs, k).Some? && Lookup(ParsePaging(queryArgs).value.rest, k).Some?)
    ensures r.Success? ==> r.value.page == ParsePaging(queryArgs).value.page
    ensures r.Success? ==> r.value.pageLength == ParsePaging(queryArgs).value.pageLength <= MaxPageSize
    ensures r.Success? ==> forall k ::
              Lookup(r.value.callArgs, k) == Either(Lookup(routeArgs, k), Lookup(ParsePaging(queryArgs).value.rest, k))
    ensures r.Failure? && r.error.DuplicateArgument? ==>
      Lookup(routeArgs, r.error.key).Some? && Lookup(ParsePaging(queryArgs).value.rest, r.error.key).Some?
  {
    match ParsePaging(queryArgs)
    case Failure(m) => Failure(BadPaging(m))
    case Success(p) =>
      match FirstShared(routeArgs, p.rest)
      case Some(k) =>
        assert Lookup(routeArgs, k).Some? && Lookup(p.rest, k).Some?;
        Failure(DuplicateArgument(k))
      case None =>
        assert forall k :: Lookup(routeArgs, k).Some? ==> Lookup(p.rest, k).None? by {
          forall k | Lookup(routeArgs, k).Some? ensures Lookup(p.rest, k).None? {
            var i := LookupIndex(routeArgs, k);
          }
        }
        LookupAppendAll(routeArgs, p.rest);
        Success(CustomCall(p.page, p.pageLength, routeArgs + p.rest))
  }
}
