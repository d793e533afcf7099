/** The API metadata an exposed model carries, merged from the model's own
    optional `Meta` declarations onto the defaults.

    The merged `Meta` class inherits from the defaults first and from the
    model's `Meta` second, so an attribute that the merge does not set
    explicitly is read from the defaults even when the model declares it.
    That is how a model's `url_prefix` is lost (see `MergeAsWritten`). */
module Meta {
  import opened Common
  import opened Links

  // ---------------------------------------------------------------------
  // Ordering links by `rel`

  /** Python's `<=` on strings: lexicographic by code point. */
  predicate LexLe(a: string, b: string)
    decreases |a|
  {
    a == [] || (b != [] && (a[0] < b[0] || (a[0] == b[0] && LexLe(a[1..], b[1..]))))
  }

  lemma {:induction false} LexTotal(a: string, b: string)
    ensures LexLe(a, b) || LexLe(b, a)
    decreases |a|
  {
    if a != [] && b != [] && a[0] == b[0] {
      LexTotal(a[1..], b[1..]);
    }
  }

  predicate SortedByRel(s: seq<ApiLink>) {
    forall i :: 0 < i < |s| ==> LexLe(s[i - 1].rel, s[i].rel)
  }

  /** Inserting a link before the first link whose `rel` it does not
      exceed. */
  function Insert(x: ApiLink, s: seq<ApiLink>): (r: seq<ApiLink>)
    requires SortedByRel(s)
    ensures SortedByRel(r)
    ensures multiset(r) == multiset(s) + multiset{x}
    ensures |r| == |s| + 1 && (r[0] == x || (s != [] && r[0] == s[0]))
  {
    if s == [] then [x]
    else if LexLe(x.rel, s[0].rel) then [x] + s
    else
      LexTotal(x.rel, s[0].rel);
      var rest := Insert(x, s[1..]);
      assert s == [s[0]] + s[1..];
      [s[0]] + rest
  }

  /** `sorted(links, key=lambda link: link.rel)`: a stable sort. */
  function SortByRel(s: seq<ApiLink>): (r: seq<ApiLink>)
    ensures SortedByRel(r)
    ensures multiset(r) == multiset(s)
  {
    if s == [] then []
    else
      assert s == [s[0]] + s[1..];
      Insert(s[0], SortByRel(s[1..]))
  }

  /** `set(links)`: each link object once. The set's iteration order is
      Python's hashing order; the model keeps first occurrences, which
      decides the order of links with equal `rel` after the stable sort. */
  function Distinct(s: seq<ApiLink>): (r: seq<ApiLink>)
    ensures NoDuplicates(r)
    ensures forall i :: 0 <= i < |r| ==> r[i] in s
    ensures forall i :: 0 <= i < |s| ==> s[i] in r
  {
    if s == [] then []
    else
      var rest := Distinct(s[..|s| - 1]);
      var last := s[|s| - 1];
      assert forall i :: 0 <= i < |s| - 1 ==> s[i] == s[..|s| - 1][i];
      if last in rest then rest else rest + [last]
  }

  /** A sequence without repeats whose multiset is that of another sequence
      without repeats holds the same elements. */
  lemma SameElements(r: seq<ApiLink>, s: seq<ApiLink>)
    requires multiset(r) == multiset(s)
    ensures forall x :: x in r <==> x in s
  {
    forall x ensures x in r <==> x in s {
      assert x in r <==> x in multiset(r);
      assert x in s <==> x in multiset(s);
    }
  }

  lemma MultisetNoDuplicates(r: seq<ApiLink>, s: seq<ApiLink>)
    requires multiset(r) == multiset(s) && NoDuplicates(s)
    ensures NoDuplicates(r)
  {
    forall i, j | 0 <= i < j < |r|
      ensures r[i] != r[j]
    {
      if r[i] == r[j] {
        var x := r[i];
        assert multiset(r[..j])[x] >= 1 by { assert r[..j][i] == x; }
        assert r == r[..j] + r[j..];
        assert multiset(r)[x] >= 2 by {
          assert multiset(r) == multiset(r[..j]) + multiset(r[j..]);
          assert r[j..][0] == x;
        }
        SeqCountAtMostOne(s, x);
        assert false;
      }
    }
  }

  lemma {:induction false} SeqCountAtMostOne(s: seq<ApiLink>, x: ApiLink)
    requires NoDuplicates(s)
    ensures multiset(s)[x] <= 1
    decreases |s|
  {
    if s != [] {
      var tail := s[1..];
      assert NoDuplicates(tail) by {
        forall i, j | 0 <= i < j < |tail| ensures tail[i] != tail[j] {
          assert tail[i] == s[i + 1] && tail[j] == s[j + 1];
        }
      }
      SeqCountAtMostOne(tail, x);
      assert s == [s[0]] + tail;
      if s[0] == x {
        assert x !in tail by {
          forall i | 0 <= i < |tail| ensures tail[i] != x {
            assert tail[i] == s[i + 1];
          }
        }
      }
    }
  }

  // ---------------------------------------------------------------------
  // The merge

  /** What a model's own `Meta` declares; `None` where it declares nothing.
      A declared `endpoint_alias` of `None` is the same as none declared. */
  datatype UserMeta = UserMeta(
    links: Option<seq<ApiLink>>,
    autoApiEndpoints: Option<bool>,
    endpointAlias: Option<string>,
    queryableRelations: Option<map<string, string>>,
    readOnlyFields: Option<seq<string>>,
    urlPrefix: Option<string>,
    customEndpoints: Option<seq<string>>)

  /** The merged metadata a model's code reads. */
  datatype MetaConfig = MetaConfig(
    apiExposed: bool,
    links: seq<ApiLink>,
    autoApiEndpoints: bool,
    endpointAlias: string,
    queryableRelations: map<string, string>,
    readOnlyFields: set<string>,
    urlPrefix: string,
    customEndpoints: seq<string>)

  const DefaultReadOnly: set<string> := {"id", "_links"}

  function Elements(s: seq<string>): set<string> {
    set x | x in s
  }

  /** The merge as the decorator performs it: `url_prefix` is always the
      default, whatever the model declares. */
  function MergeAsWritten(defaultLinks: seq<ApiLink>, className: string, user: Option<UserMeta>): (m: MetaConfig)
    ensures m.apiExposed && m.urlPrefix == ""
  {
    match user
    case None => MetaConfig(true, defaultLinks, true, Lower(className), map[], DefaultReadOnly, "", [])
    case Some(u) =>
      MetaConfig(
        true,
        SortByRel(Distinct(defaultLinks + u.links.GetOr([]))),
        u.autoApiEndpoints.GetOr(true),
        if u.endpointAlias.Some? && u.endpointAlias.value != "" then u.endpointAlias.value else Lower(className),
        u.queryableRelations.GetOr(map[]),
        DefaultReadOnly + Elements(u.readOnlyFields.GetOr([])),
        "",
        u.customEndpoints.GetOr([]))
  }

  /** The merge with the model's declared `url_prefix` honoured, as the
      documentation of the decorator and the namespace builder expect. */
  function Merge(defaultLinks: seq<ApiLink>, className: string, user: Option<UserMeta>): (m: MetaConfig)
    ensures m.apiExposed
    ensures m == MergeAsWritten(defaultLinks, className, user).(urlPrefix := m.urlPrefix)
    ensures m.urlPrefix == if user.Some? then user.value.urlPrefix.GetOr("") else ""
  {
    var m := MergeAsWritten(defaultLinks, className, user);
    if user.Some? then m.(urlPrefix := user.value.urlPrefix.GetOr("")) else m
  }

  /** What the merge promises: the read-only fields are the defaults plus
      the model's own; the alias is the model's if it is non-empty, else the
      lower-cased class name; the links are the default and declared links,
      each once, ordered by `rel`; the flags default to their defaults. */
  lemma {:induction false} MergeProperties(defaultLinks: seq<ApiLink>, className: string, user: Option<UserMeta>)
    requires NoDuplicates(defaultLinks)
    ensures var m := Merge(defaultLinks, className, user);
      && m.readOnlyFields == DefaultReadOnly + (if user.Some? then Elements(user.value.readOnlyFields.GetOr([])) else {})
      && (user.Some? && user.value.endpointAlias.Some? && user.value.endpointAlias.value != "" ==>
            m.endpointAlias == user.value.endpointAlias.value)
      && (user.None? || user.value.endpointAlias.None? || user.value.endpointAlias.value == "" ==>
            m.endpointAlias == Lower(className))
      && NoDuplicates(m.links)
      && (forall l :: l in m.links <==> l in defaultLinks || (user.Some? && l in user.value.links.GetOr([])))
      && (user.Some? ==> SortedByRel(m.links))
      && (user.None? ==> m.links == defaultLinks)
      && m.autoApiEndpoints == (user.None? || user.value.autoApiEndpoints.GetOr(true))
  {
    var m := Merge(defaultLinks, className, user);
    if user.Some? {
      var d := Distinct(defaultLinks + user.value.links.GetOr([]));
      SameElements(m.links, d);
      MultisetNoDuplicates(m.links, d);
      assert forall l :: l in defaultLinks + user.value.links.GetOr([]) <==> l in defaultLinks || l in user.value.links.GetOr([]);
    }
  }

  /** The lost prefix: a model declaring `url_prefix` gets the default
      empty prefix from the decorator as written; the corrected merge keeps
      the declared one. */
  lemma UrlPrefixShadowed(defaultLinks: seq<ApiLink>, className: string, u: UserMeta)
    requires u.urlPrefix == Some("parent/")
    ensures MergeAsWritten(defaultLinks, className, Some(u)).urlPrefix == ""
    ensures Merge(defaultLinks, className, Some(u)).urlPrefix == "parent/"
  {
  }

  // ---------------------------------------------------------------------
  // The namespace path built from the prefix

  predicate AllSlashes(s: string) {
    forall k :: 0 <= k < |s| ==> s[k] == '/'
  }

  /** `s.strip('/')`: no slash is left at either end, and only a string
      of slashes strips to nothing. */
  function StripSlashes(s: string): (r: string)
    ensures r == [] || (r[0] != '/' && r[|r| - 1] != '/')
    ensures r == [] <==> AllSlashes(s)
  {
    if s != [] && s[0] == '/' then
      assert AllSlashes(s) <==> AllSlashes(s[1..]) by {
        assert forall k :: 0 < k < |s| ==> s[k] == s[1..][k - 1];
      }
      StripSlashes(s[1..])
    else if s != [] && s[|s| - 1] == '/' then
      assert AllSlashes(s) <==> AllSlashes(s[..|s| - 1]) by {
        assert forall k :: 0 <= k < |s| - 1 ==> s[k] == s[..|s| - 1][k];
      }
      StripSlashes(s[..|s| - 1])
    else s
  }

  /** What `strip('/')` removes is slashes only: the result is the slice
      `s[i..j]` of `s`, and everything before `i` and from `j` on is a
      slash. */
  lemma {:induction false} StripSlashesSlice(s: string) returns (i: nat, j: nat)
    ensures i <= j <= |s| && StripSlashes(s) == s[i..j]
    ensures AllSlashes(s[..i]) && AllSlashes(s[j..])
    decreases |s|
  {
    if s != [] && s[0] == '/' {
      var i', j' := StripSlashesSlice(s[1..]);
      i, j := LeadingSlash(s, i', j');
    } else if s != [] && s[|s| - 1] == '/' {
      i, j := StripSlashesSlice(s[..|s| - 1]);
      TrailingSlash(s, i, j);
    } else {
      i, j := 0, |s|;
    }
  }

  /** A slice of `s[1..]` framed by slashes, shifted into `s` after a
      leading slash. */
  lemma LeadingSlash(s: string, i': nat, j': nat) returns (i: nat, j: nat)
    requires s != [] && s[0] == '/'
    requires i' <= j' <= |s[1..]| && AllSlashes(s[1..][..i']) && AllSlashes(s[1..][j'..])
    ensures i == i' + 1 && j == j' + 1 && j <= |s| && s[1..][i'..j'] == s[i..j]
    ensures AllSlashes(s[..i]) && AllSlashes(s[j..])
  {
    i, j := i' + 1, j' + 1;
    assert s[1..][i'..j'] == s[i..j];
    assert s[1..][j'..] == s[j..];
    forall k | 0 <= k < i ensures s[k] == '/' {
      if k > 0 {
        assert s[k] == s[1..][..i'][k - 1];
      }
    }
  }

  /** A slice of `s` without its trailing slash, framed by slashes, is
      framed by slashes in `s` too. */
  lemma TrailingSlash(s: string, i: nat, j: nat)
    requires s != [] && s[|s| - 1] == '/'
    requires i <= j <= |s| - 1 && AllSlashes(s[..|s| - 1][..i]) && AllSlashes(s[..|s| - 1][j..])
    ensures s[..|s| - 1][i..j] == s[i..j]
    ensures AllSlashes(s[..i]) && AllSlashes(s[j..])
  {
    var t := s[..|s| - 1];
    assert t[..i] == s[..i];
    forall k | j <= k < |s| ensures s[k] == '/' {
      if k < |s| - 1 {
        assert s[k] == t[j..][k - j];
      }
    }
  }

  /** The namespace path: the route's explicit prefix if it gives one,
      else the model's; that prefix without its surrounding slashes; then
      the alias. A prefix made only of slashes puts the namespace at the
      root. */
  function NamespacePath(argPrefix: string, metaPrefix: string, alias: string): (p: string)
    ensures StartsWith(p, "/")
    ensures EndsWith(p, "/" + alias)
    ensures var chosen := if argPrefix != "" then argPrefix else metaPrefix;
      && (AllSlashes(chosen) ==> p == "/" + alias)
      && (!AllSlashes(chosen) ==> p == "/" + StripSlashes(chosen) + "/" + alias)
  {
    var prefix := StripSlashes(if argPrefix != "" then argPrefix else metaPrefix);
    var p := (if prefix != "" then "/" else "") + prefix + "/" + alias;
    assert p[|p| - |"/" + alias|..] == "/" + alias;
    p
  }

  /** The route's prefix wins: once the route gives one, the model's
      prefix plays no part; without one, the model's prefix is used just as
      if the route had given it. */
  lemma RoutePrefixWins(argPrefix: string, metaPrefix: string, otherMetaPrefix: string, alias: string)
    ensures argPrefix != "" ==> NamespacePath(argPrefix, metaPrefix, alias) == NamespacePath(argPrefix, otherMetaPrefix, alias)
    ensures NamespacePath("", metaPrefix, alias) == NamespacePath(metaPrefix, "", alias)
  {
  }

  lemma StripTrailingSlash()
    ensures StripSlashes("parent/") == "parent"
  {
    var s := "parent/";
    assert s[0] != '/' && s[|s| - 1] == '/';
    assert s[..|s| - 1] == "parent";
  }

  /** With the declared prefix `parent/` the namespace sits under that
      prefix; with the empty prefix the merge as written produces, it sits
      at the root. */
  lemma PrefixedPath()
    ensures NamespacePath("", "", "child") == "/child"
    ensures NamespacePath("", "parent/", "child") == "/parent/child"
  {
    StripTrailingSlash();
    assert StripSlashes("") == "";
    var p := "parent";
    assert ("/" + p) + "/" + "child" == "/parent/child";
    assert ([] + []) + "/" + "child" == "/child";
  }
}
