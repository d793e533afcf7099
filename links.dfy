/** Hypermedia links attached to API records.

    An `ApiLink` is a mutable builder shared by every record of a model: it
    names an endpoint template, a relation and a method, and the arguments
    it will bind from a record's attributes. `ForRecord` and `AddArgs`
    prepare it; `Finalise` produces the link dictionary and never fails:
    any error becomes a dictionary whose `href` describes the error.

    URL building is the caller's `urlFor`, which may fail. An endpoint
    template is given already split into literal text and `{name}`
    placeholders. */
module Links {
  import opened Common
  import opened Records

  datatype Part = Lit(text: string) | Hole(name: string)

  /** An endpoint template such as `api.{endpoint_alias}-one`. */
  type Template = seq<Part>

  /** Filling a template from the model's `Meta` namespace, of which only
      the endpoint alias is modelled; any other placeholder is a missing
      key (`Failure` names it). */
  function Format(t: Template, alias: string): (r: Result<string, string>)
    ensures r.Failure? <==> exists i :: 0 <= i < |t| && t[i].Hole? && t[i].name != "endpoint_alias"
    ensures (forall i :: 0 <= i < |t| ==> t[i].Lit?) ==> r == Success(LitText(t))
  {
    if t == [] then Success("")
    else
      var rest := Format(t[1..], alias);
      assert forall i :: 1 <= i < |t| ==> t[i] == t[1..][i - 1];
      match t[0]
      case Lit(text) => if rest.Success? then Success(text + rest.value) else rest
      case Hole(name) =>
        if name != "endpoint_alias" then Failure(name)
        else if rest.Success? then Success(alias + rest.value) else rest
  }

  /** The literal text of a template, its placeholders dropped. */
  function LitText(t: Template): string {
    if t == [] then "" else (if t[0].Lit? then t[0].text else "") + LitText(t[1..])
  }

  /** The template every exposed model's default links use. */
  const OneTemplate: Template := [Lit("api."), Hole("endpoint_alias"), Lit("-one")]

  lemma OneTemplateFills(alias: string)
    ensures Format(OneTemplate, alias) == Success("api." + alias + "-one")
  {
    var t := OneTemplate;
    assert t[1..][1..][1..] == [];
    assert "-one" + "" == "-one";
    assert Format(t[1..][1..], alias) == Success("-one");
    assert Format(t[1..], alias) == Success(alias + "-one");
    assert "api." + (alias + "-one") == "api." + alias + "-one";
  }

  /** What went wrong while generating a link. */
  datatype LinkError =
    | NoRecord                      // ValueError: no record was bound
    | MissingAttribute(attr: string) // AttributeError: the record lacks a bound attribute
    | MissingPlaceholder(name: string) // KeyError: the template names an unknown key
    | UrlBuildFailed(endpoint: string) // url_for raised

  /** The rendered link: `rel` and `method` are `None` in an error link. */
  datatype LinkDict = LinkDict(href: string, rel: Option<string>, httpMethod: Option<string>)

  const ErrorPrefix: string := "Error generating link: "

  function Describe(e: LinkError): string {
    match e
    case NoRecord =>
      "ValueError Record has not been defined for ApiLink! ('Record has not been defined for ApiLink!',)"
    case MissingAttribute(a) => "AttributeError " + a
    case MissingPlaceholder(n) => "KeyError '" + n + "'"
    case UrlBuildFailed(ep) => "BuildError " + ep
  }

  /** The dictionary returned in place of an exception. */
  function ErrorLink(e: LinkError): (d: LinkDict)
    ensures d.rel.None? && d.httpMethod.None?
    ensures StartsWith(d.href, ErrorPrefix)
  {
    var d := LinkDict(ErrorPrefix + Describe(e), None, None);
    assert d.href[..|ErrorPrefix|] == ErrorPrefix;
    d
  }

  /** Binding record attributes to endpoint arguments, in declaration
      order; the first attribute the record lacks stops the binding, and
      the arguments bound before it stay bound. */
  function Bind(kwargs: map<string, Value>, attrs: Attrs, recordArgs: seq<(string, string)>)
    : (r: (map<string, Value>, Option<string>))
    ensures kwargs.Keys <= r.0.Keys
    ensures r.1.Some? ==> r.1.value !in attrs && exists i :: 0 <= i < |recordArgs| && recordArgs[i].1 == r.1.value
    decreases |recordArgs|
  {
    if recordArgs == [] then (kwargs, None)
    else if recordArgs[0].1 !in attrs then (kwargs, Some(recordArgs[0].1))
    else
      var r := Bind(kwargs[recordArgs[0].0 := attrs[recordArgs[0].1]], attrs, recordArgs[1..]);
      assert forall i :: 1 <= i < |recordArgs| ==> recordArgs[i] == recordArgs[1..][i - 1];
      r
  }

  predicate DistinctNames(recordArgs: seq<(string, string)>) {
    forall i, j :: 0 <= i < j < |recordArgs| ==> recordArgs[i].0 != recordArgs[j].0
  }

  predicate Binds(k: string, recordArgs: seq<(string, string)>) {
    exists i :: 0 <= i < |recordArgs| && recordArgs[i].0 == k
  }

  /** Binding succeeds exactly when the record has every bound attribute;
      then each bound argument holds its attribute's value, whatever was
      added before under the same name, and every other argument is as it
      was. */
  lemma {:induction false} BindOverrides(kwargs: map<string, Value>, attrs: Attrs, recordArgs: seq<(string, string)>)
    requires DistinctNames(recordArgs)
    ensures var (bound, missing) := Bind(kwargs, attrs, recordArgs);
      && (missing.None? <==> forall i :: 0 <= i < |recordArgs| ==> recordArgs[i].1 in attrs)
      && (missing.None? ==> forall i :: 0 <= i < |recordArgs| ==>
            recordArgs[i].0 in bound && bound[recordArgs[i].0] == attrs[recordArgs[i].1])
      && (forall k :: !Binds(k, recordArgs) ==> (k in bound <==> k in kwargs) && (k in kwargs ==> bound[k] == kwargs[k]))
    decreases |recordArgs|
  {
    if recordArgs != [] && recordArgs[0].1 in attrs {
      var (k0, a0) := recordArgs[0];
      var tail := recordArgs[1..];
      assert DistinctNames(tail) by {
        forall i, j | 0 <= i < j < |tail| ensures tail[i].0 != tail[j].0 {
          assert tail[i] == recordArgs[i + 1] && tail[j] == recordArgs[j + 1];
        }
      }
      BindOverrides(kwargs[k0 := attrs[a0]], attrs, tail);
      var (bound, missing) := Bind(kwargs[k0 := attrs[a0]], attrs, tail);
      assert !Binds(k0, tail) by {
        forall i | 0 <= i < |tail| ensures tail[i].0 != k0 {
          assert tail[i] == recordArgs[i + 1];
        }
      }
      forall k | Binds(k, tail) ensures Binds(k, recordArgs) {
        var i :| 0 <= i < |tail| && tail[i].0 == k;
        assert recordArgs[i + 1].0 == k;
      }
      assert Binds(k0, recordArgs) by {
        assert recordArgs[0].0 == k0;
      }
      forall i | 0 <= i < |recordArgs| && i > 0
        ensures recordArgs[i] == tail[i - 1]
      {
      }
    }
  }

  class ApiLink {
    const endpoint: Template
    const rel: string
    const httpMethod: string
    /** Endpoint argument name to the record attribute it is read from. */
    const recordArgs: seq<(string, string)>
    var record: Option<Record>
    var kwargs: map<string, Value>

    /** Python keyword arguments carry distinct names. */
    constructor (endpoint: Template, recordArgs: seq<(string, string)>, rel: string := "link", httpMethod: string := "GET")
      requires DistinctNames(recordArgs)
      ensures this.endpoint == endpoint && this.rel == rel && this.httpMethod == httpMethod
      ensures this.recordArgs == recordArgs
      ensures record.None? && kwargs == map[]
    {
      this.endpoint := endpoint;
      this.rel := rel;
      this.httpMethod := httpMethod;
      this.recordArgs := recordArgs;
      record := None;
      kwargs := map[];
    }

    /** `for_record`: remember the record to read arguments from. */
    method ForRecord(rec: Record) returns (self: ApiLink)
      modifies this
      ensures self == this
      ensures record == Some(rec) && kwargs == old(kwargs)
    {
      record := Some(rec);
      return this;
    }

    /** `add_args`: merge further endpoint arguments. */
    method AddArgs(args: map<string, Value>) returns (self: ApiLink)
      modifies this
      ensures self == this
      ensures kwargs == old(kwargs) + args && record == old(record)
    {
      kwargs := kwargs + args;
      return this;
    }

    /** The link for an alias and bound arguments, or the error link. */
    static function Render(endpoint: Template, rel: string, httpMethod: string, alias: string,
                           kwargs: map<string, Value>, urlFor: (string, map<string, Value>) -> Option<string>): (d: LinkDict)
      ensures d.rel.Some? <==> Format(endpoint, alias).Success? && urlFor(Format(endpoint, alias).value, kwargs).Some?
      ensures d.rel.Some? ==> d == LinkDict(urlFor(Format(endpoint, alias).value, kwargs).value, Some(rel), Some(httpMethod))
    {
      match Format(endpoint, alias)
      case Failure(name) => ErrorLink(MissingPlaceholder(name))
      case Success(ep) =>
        match urlFor(ep, kwargs)
        case None => ErrorLink(UrlBuildFailed(ep))
        case Some(href) => LinkDict(href, Some(rel), Some(httpMethod))
    }

    /** `finalise`: bind the record's attributes over the added arguments,
        fill in the model's endpoint alias with the lower-cased class name
        if it has none, and build the URL. */
    method Finalise(urlFor: (string, map<string, Value>) -> Option<string>) returns (d: LinkDict)
      modifies this, if record.Some? then {record.value.model} else {}
      ensures record == old(record)
      ensures d.rel.None? <==> d.httpMethod.None?
      ensures d.rel.None? ==> StartsWith(d.href, ErrorPrefix)
      ensures old(record).None? ==> d == ErrorLink(NoRecord) && kwargs == old(kwargs)
      ensures old(record).Some? ==>
        var rec := old(record).value;
        var (bound, missing) := Bind(old(kwargs), rec.attrs, recordArgs);
        && kwargs == bound
        && (missing.Some? ==>
              d == ErrorLink(MissingAttribute(missing.value))
              && rec.model.endpointAlias == old(rec.model.endpointAlias))
        && (missing.None? ==>
              rec.model.endpointAlias == Some(old(rec.model.endpointAlias).GetOr(Lower(rec.model.name)))
              && d == Render(endpoint, rel, httpMethod, rec.model.endpointAlias.value, bound, urlFor))
    {
      if record.None? {
        return ErrorLink(NoRecord);
      }
      var rec := record.value;
      var i := 0;
      while i < |recordArgs|
        invariant 0 <= i <= |recordArgs|
        invariant record == old(record) && rec.model.endpointAlias == old(rec.model.endpointAlias)
        invariant Bind(kwargs, rec.attrs, recordArgs[i..]) == Bind(old(kwargs), rec.attrs, recordArgs)
        decreases |recordArgs| - i
      {
        var (name, attr) := recordArgs[i];
        assert recordArgs[i..][1..] == recordArgs[i + 1..];
        if attr !in rec.attrs {
          return ErrorLink(MissingAttribute(attr));
        }
        kwargs := kwargs[name := rec.attrs[attr]];
        i := i + 1;
      }
      if rec.model.endpointAlias.None? {
        rec.model.endpointAlias := Some(Lower(rec.model.name));
      }
      d := Render(endpoint, rel, httpMethod, rec.model.endpointAlias.value, kwargs, urlFor);
    }
  }

  /** A link prepared with `AddArgs` and then finalised carries the
      record's attribute under every bound name, whatever was added. */
  method AddedArgumentsLose(rec: Record, urlFor: (string, map<string, Value>) -> Option<string>)
    requires "id" in rec.attrs
    modifies rec.model
  {
    var link := new ApiLink(OneTemplate, [("id", "id")], "edit record", "POST");
    var l1 := link.ForRecord(rec);
    var l2 := link.AddArgs(map["id" := Int(-1), "page" := Int(2)]);
    var d := link.Finalise(urlFor);
    assert link.kwargs == Bind(map["id" := Int(-1), "page" := Int(2)], rec.attrs, [("id", "id")]).0;
    assert link.kwargs == map["id" := rec.attrs["id"], "page" := Int(2)];
  }

  /** `finalise_links`: bind every link of the model to `rec` and add the
      arguments. The links are shared objects and may repeat. */
  method FinaliseLinks(links: seq<ApiLink>, rec: Record, args: map<string, Value>)
    modifies set l | l in links
    ensures forall l :: l in links ==> l.record == Some(rec) && l.kwargs == old(l.kwargs) + args
  {
    var i := 0;
    while i < |links|
      invariant 0 <= i <= |links|
      invariant forall l :: l in links[..i] ==> l.record == Some(rec) && l.kwargs == old(l.kwargs) + args
      invariant forall l :: l in links && l !in links[..i] ==> l.record == old(l.record) && l.kwargs == old(l.kwargs)
      decreases |links| - i
    {
      var link := links[i];
      var bound := link.ForRecord(rec);
      bound := bound.AddArgs(args);
      assert old(link.kwargs) + args + args == old(link.kwargs) + args;
      assert links[..i + 1] == links[..i] + [link];
      i := i + 1;
    }
    assert links[..i] == links;
  }
}
