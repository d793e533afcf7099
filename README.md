# Flask-App-Blueprint: the REST generator's core, in Dafny

Flask-App-Blueprint turns annotated SQLAlchemy models into a REST API. A model is
decorated to be exposed. The decorator merges the model's optional `Meta` onto
defaults and installs JSON rendering, payload ingestion and hypermedia links.
For each exposed model the route factory then registers API schemas and generates
list, detail, create, update and delete routes. Every route is gated by an access
level. The create and update routes validate their JSON body against the payload
schema. Writes can be grouped into client-held database sessions, which a
session manager keeps open, times out and logs.

This project models that core and proves what it promises:

- `common.dfy`: shared values, `Option`/`Result`, Python's `int()` on strings,
  ASCII `str.lower()`.
- `sessions.dfy`: the `SessionManager` class: open sessions, last-action
  stamps, the debounced timeout sweep, and the per-session log of mutated
  records.
- `records.dfy`: a record's `json` and `to_json`, and `ingest_payload`,
  including how id lists resolve to related records.
- `links.dfy`: the `ApiLink` builder (`for_record`, `add_args`, `finalise`)
  and `finalise_links`.
- `meta.dfy`: the `expose_to_api` merge of `Meta` and the namespace path built
  from it.
- `envelope.dfy`: `wrap_result` and `handle_bad_request`.
- `listing.dfy`: the parameter and filter logic of `handle_paginated_request`,
  and the pagination of `CustomApiQuery`.
- `registrar.dfy`: `_register_api_model`, with its recursion guard, type table
  and payload subset.
- `validation.dfy`: `_validate_args`.
- `conflicts.dfy`: the unique-violation rewrite and the error routing of the
  create and update handlers.
- `auth.dfy`: `check_auth_level` and `require_auth`.

Time is an integer count of seconds passed in by the caller. Database session
handles are an opaque type parameter. The related tables a payload refers to
are given as the sets of primary keys they hold. `url_for` and a model's
`_ingest_payload` hook are function parameters. The reflection the schema
registration performs is given as data describing each class.

## Model

| member | source | states |
|---|---|---|
| Common.ParseInt | src/auth.py:30 | `int()` of a string succeeds only when it holds a digit, and is negative only when it holds a minus sign |
| Common.ParseIntToDecimal | src/auth.py:30 | `int()` reads back every integer written in decimal |
| Auth.CheckAuthLevel | src/auth.py:19-30 | no credential is denied; a non-numeric one raises instead of denying; access is granted exactly when the parsed level is at most the required one |
| Auth.DecimalCredential | src/auth.py:28-30 | a level sent in decimal passes exactly when it is at most the required level |
| Auth.Monotonic | src/auth.py:30 | a credential that passes a gate passes every gate with a larger required level |
| Auth.SuperPassesEveryRoute | src/constants.py:11-13 | level 0 passes the gate of every generated route |
| Auth.RequireAuth | src/auth.py:33-51 | the handler runs, on its own arguments, exactly when the check passes; a denial raises Unauthorized "Access level insufficient" without running it |
| Auth.OnlySuperDeletes | src/api/core.py:625 | only a credential of level 0 or below passes the delete gate |
| Auth.ViewerReach | src/api/core.py:399-661 | a viewer credential reaches exactly the read routes |
| Sessions.ParseAction | src/database/core.py:173-174 | an action is accepted exactly when it is CREATE, UPDATE or DELETE, and is named back unchanged |
| Sessions.MutationLog.AsDict | src/database/core.py:167-172 | a session's log is a dictionary of exactly the three action buckets |
| Sessions.ExpiredIds | src/database/core.py:80-82 | a session is expired exactly when it has been idle for at least the limit, and only stamped sessions are |
| Sessions.ExpiryMonotone | src/database/core.py:80-82 | a session expired now is expired at every later time, and a longer limit expires no more sessions |
| Sessions.SweptIds | src/database/core.py:74-83 | no session is swept within one timeout interval of the previous sweep; after that, exactly those idle for at least the timeout are swept |
| Sessions.RolledBackStep | src/database/core.py:65-67 | each timed-out session adds one rollback-and-close of its own handle to the trace |
| Sessions.AppendUnique | src/database/core.py:183-184 | an entry is appended only when absent; the bucket keeps its prefix and stays free of repeats |
| Sessions.Logged | src/database/core.py:183-184 | logging an entry keeps every bucket free of repeats |
| Sessions.LoggedBuckets | src/database/core.py:183-184 | logging touches only the bucket of its action |
| Sessions.SessionManager.constructor | src/database/core.py:30-43 | a new manager holds no sessions, stamps or logs; its timeout is the given minutes in seconds |
| Sessions.SessionManager.CleanupSession | src/database/core.py:85-99 | an unknown id fails with nothing changed; a known one is removed from sessions, stamps and logs |
| Sessions.SessionManager.DoTimeout | src/database/core.py:58-68 | the session's handle is rolled back and closed, then the session is cleaned up |
| Sessions.SessionManager.CheckTimeouts | src/database/core.py:70-83 | within the interval nothing changes; otherwise exactly the expired sessions are rolled back and removed, none that remains is expired, and the sweep time is now |
| Sessions.SessionManager.RollBackExpired | src/database/core.py:80-82 | exactly the sessions expired at `now` are rolled back, closed and removed, and none that remains is expired |
| Sessions.SessionManager.SweepOne | src/database/core.py:81-82 | one session is timed out exactly when it has expired, and nothing else changes |
| Sessions.SessionManager.Get | src/database/core.py:101-131 | after the sweep, a live id returns its own handle and is stamped; a swept or unknown id fails; no id opens the new session stamped now |
| Sessions.SessionManager.CommitAndClose | src/database/core.py:133-149 | an unknown id fails with nothing changed; a known one is committed, closed and forgotten |
| Sessions.SessionManager.CacheRecord | src/database/core.py:151-184 | the log is created before the action is checked; an invalid action or an unexposed record fails; otherwise the entry is logged once under its action |
| Sessions.SessionManager.GetObjects | src/database/core.py:186-203 | an unknown session has no log; a known one has the three buckets, each holding exactly the entries logged under its action and none twice |
| Records.JsonOf | src/util.py:150-167 | the JSON has exactly the declared fields; a `SqlMany` field becomes its related ids in order; every other field is its raw value |
| Records.Record.Json | src/util.py:150-167 | a record's JSON has exactly its model's declared fields |
| Records.PyPrefix | src/util.py:185 | `s[:n]` with Python's slicing, negative `n` included |
| Records.Truncated | src/util.py:182-185 | keys and non-strings unchanged; every string is a prefix of itself, cut to `n` when longer |
| Records.TruncatedBounded | src/util.py:182-185 | for `n >= 0` every string is at most `n` long and truncating twice changes nothing |
| Records.NegativeLengthCutsAgain | src/util.py:184-185 | with a negative length each pass cuts the string again |
| Records.Record.ToJson | src/util.py:170-186 | without truncation the result is `json`; with it, the truncation of `json` |
| Records.Found | src/util.py:203 | the records a query finds are the distinct ids present in the table |
| Records.Missing | src/util.py:206 | the missed ids are exactly the supplied ids absent from the table |
| Records.FoundAll | src/util.py:203-205 | the query finds as many records as ids exactly when the ids are distinct and all present |
| Records.ResolveChecked | src/util.py:203-207 | resolution fails exactly when some id is absent, naming exactly the absent ids |
| Records.ResolveAsWritten | src/util.py:203-207 | the check as written passes exactly when the ids are distinct and all present; when it fails it names exactly the absent ids, an empty list when only repeats made it fail |
| Records.DuplicateIdRefused | src/util.py:205-207 | a repeated present id is refused with an empty list of missed ids as written; the corrected check accepts it |
| Records.ResolveAgrees | src/util.py:203-207 | on distinct ids the check as written and the corrected one agree |
| Records.MissingMessage | src/util.py:207 | the error names the table and the field |
| Records.IngestOne | src/util.py:199-210 | an undeclared key fails; a plain field takes the value verbatim; a to-many field needs a list of ids, is set to the records found, and fails exactly when the id check (as written or corrected) reports missed ids |
| Records.IngestSpec | src/util.py:196-210 | a payload ingests without error only when every key is a declared field; an unknown-field error names an undeclared key |
| Records.DuplicateIdIngest | src/util.py:203-207 | a payload naming existing record 1 twice stops the ingest as written with a ValueError listing no id; corrected, the record is related once |
| Records.IngestFrame | src/util.py:199-210 | for both the check as written and the corrected one, fields absent from the payload are untouched and a well-typed record stays well typed |
| Records.JsonRoundTrip | src/util.py:159-210 | ingesting a record's own JSON into any record succeeds and reproduces its values, with the id check as written and corrected alike |
| Records.Record.IngestPayload | src/util.py:188-210 | the loop computes the ingest (as written or corrected), stopping at the first error with the assignments made so far kept; a record stays well typed when the payload holds JSON values |
| Records.Record.ExposedIngest | src/util.py:295-306 | a model's hook rewrites the payload before it is ingested; the record stays well typed when the rewritten payload holds JSON values |
| Links.Format | src/util.py:107 | formatting fails exactly when the template names a placeholder other than `endpoint_alias`; a template without placeholders formats to exactly its literal text |
| Links.OneTemplateFills | src/util.py:139-140 | the default links' endpoint becomes `api.<alias>-one` |
| Links.ErrorLink | src/util.py:113-119 | an error link describes the error in `href` and has no `rel` and no `method` |
| Links.Bind | src/util.py:102-103 | every added argument keeps its key; a binding stops only at an attribute the record lacks, and that attribute is one the record arguments name |
| Links.BindOverrides | src/util.py:102-103 | every record-bound argument overwrites a same-named added argument; others are kept |
| Links.ApiLink.constructor | src/util.py:36-53 | defaults `rel` "link" and method "GET"; no record and no arguments yet |
| Links.ApiLink.ForRecord | src/util.py:55-66 | the record is set and the same builder is returned |
| Links.ApiLink.AddArgs | src/util.py:68-80 | the arguments are merged in and the same builder is returned |
| Links.ApiLink.Render | src/util.py:107-119 | a link has `rel` and `method` exactly when formatting and URL building both succeed |
| Links.ApiLink.Finalise | src/util.py:82-121 | never fails; with no record it returns the error link; otherwise it binds the record's attributes, fills a missing alias with the lower-cased class name, then renders |
| Links.FinaliseLinks | src/util.py:227-231 | every link of the model is bound to the record and gets the arguments |
| Meta.Insert | src/util.py:288 | insertion keeps the links sorted by `rel` and adds exactly the one link |
| Meta.SortByRel | src/util.py:288 | the links sorted by `rel`, as a permutation |
| Meta.Distinct | src/util.py:288 | each link once, and no other |
| Meta.MergeAsWritten | src/util.py:285-293 | the merge as written exposes the model and always has the default empty `url_prefix` |
| Meta.Merge | src/util.py:285-293 | the corrected merge: identical to the one as written except that the model's `url_prefix` is kept |
| Meta.MergeProperties | src/util.py:285-293 | read-only fields are the defaults plus the model's; the alias is the model's if non-empty, else the lower-cased class name; the links are default and declared links, each once, sorted by `rel` |
| Meta.UrlPrefixShadowed | src/util.py:285 | a declared `url_prefix` is lost as written and kept by the corrected merge |
| Meta.StripSlashes | src/api/core.py:370 | `strip('/')` leaves no slash at either end, and is empty exactly when the text is all slashes |
| Meta.StripSlashesSlice | src/api/core.py:370 | the result of `strip('/')` is a slice of the text with only slashes cut from either side |
| Meta.NamespacePath | src/api/core.py:370-372 | the route's prefix is used when non-empty, else the model's; an all-slash prefix puts the namespace at `/<alias>`, any other sits slash-trimmed between `/` and `/<alias>` |
| Meta.RoutePrefixWins | src/api/core.py:370 | a non-empty route prefix makes the model's prefix irrelevant, and without one the model's prefix acts as the route's |
| Meta.PrefixedPath | src/api/core.py:370-372 | the empty prefix puts the namespace at the root; `parent/` puts it under `/parent` |
| Envelope.WrapResult | src/api/core.py:102-112 | the envelope has exactly `result`, `success` and `info`, and `info` has `code`, `message`, `session` and the metadata |
| Envelope.UnwrapWrap | src/api/core.py:102-112 | every envelope reads back as the arguments it was built from |
| Envelope.WrapDefaults | src/api/core.py:102 | the defaults are success, code 200 and the standard message |
| Envelope.HandleBadRequest | src/api/core.py:82-99 | a failure envelope with no result, no session and no metadata, carrying the exception's code, also as the status, and its description, a single line or a list of lines, which reads back unchanged |
| Listing.Remove | src/api/core.py:132-143 | `pop` removes the key and keeps every other |
| Listing.Overlay | src/api/core.py:129 | in the merged arguments every key the query string gives has its value, and every other key the route's |
| Listing.ParsePaging | src/api/core.py:131-135 | `_page` defaults to 1 and `_pagelength` to 100 capped at 1000; a non-integer fails with the pagination message; both keys are consumed |
| Listing.QueryStringWins | src/api/core.py:129-133 | a page length given as text in the query string is the one used, capped |
| Listing.Classify | src/api/core.py:150-161 | every remaining argument yields a filter or an error; there are no errors exactly when every target is an attribute |
| Listing.ClassifyNames | src/api/core.py:150-161 | every error names an unknown key; every filter is on an attribute of the model |
| Listing.ClassifyFilters | src/api/core.py:150-161 | the loop computes the classification |
| Listing.RemoveAll | src/api/core.py:132-143 | all control keys are removed, and nothing else |
| Listing.ParseListRequest | src/api/core.py:129-161 | pagination errors come first, then a sort key that is not an attribute (a non-text one raising a TypeError), then a session id not open after the sweep, then every unknown filter in one BadRequest of lines; success carries the paging, the sort key, `_query`, `_session` and the filters |
| Listing.FirstShared | src/util.py:250 | finds a keyword both argument sets give, or shows there is none |
| Listing.CustomQueryCall | src/util.py:243-257 | the same pagination rules, and the page and capped page length are those parsed; the call fails exactly when some keyword is given both by the route and by the query string; otherwise the remaining arguments are passed to the query |
| Registrar.Put | src/api/core.py:239 | `d[k] = v` keeps every key and adds `k` with its new value |
| Registrar.PayloadFields | src/api/core.py:288-295 | a field is in the payload exactly when it is an API field that is neither read-only nor a hybrid property without a setter |
| Registrar.UnusableHybrid | src/api/core.py:211-233 | the first annotated hybrid property that has neither a class-level expression nor a getter usable on the class, or none |
| Registrar.WithHybrids | src/api/core.py:209-239 | the fields are the dataclass fields plus every annotated hybrid property, each added field carrying its hybrid's annotation and relationship flag |
| Registrar.NestedFieldStep | src/api/core.py:266-283 | a field naming a model already registered in the namespace is nested, as a list exactly when its relationship's `uselist` is set, whether it is a dataclass field or a hybrid property |
| Registrar.HybridRelationNested | src/api/core.py:235-283 | in an example where `Child` is already registered, a hybrid property of `Parent` whose class-level value is a to-many relationship is registered as a list of nested `child` payloads |
| Registrar.Publish | src/api/core.py:297-302 | registration adds exactly the payload, record, response and detailed schemas of the model, the record inheriting `record-base` and the payload holding the payload fields, and changes no other schema |
| Registrar.Resolve | src/api/core.py:251-261 | a class annotation is itself; a name must be bound in the models module; anything else resolves to `object` and fails the module check |
| Registrar.Register | src/api/core.py:184-304 | registration never drops a schema; it halts exactly on a name already in the path; a registered model has its schema, every nested schema of which exists, and its payload subset; the corrected variant never fails on a missing sub-schema |
| Registrar.RegisterFields | src/api/core.py:242-285 | every field of the conversion table is in the schema, and only declared fields are; nested schemas exist |
| Registrar.SelfReferenceFails | src/api/core.py:199-278 | the model `Node`, nesting itself, fails registration with a KeyError on `node-payload` |
| Registrar.SelfReferenceRegistered | src/api/core.py:199-278 | corrected, that model is registered without the self-nesting field |
| Registrar.SubModelFailureSkipped | src/api/core.py:266-275 | in the Parent/Child example, a sub-model's assertion failure costs a top-level registration only the field that nests it |
| Registrar.SubModelFailurePropagates | src/api/core.py:266-273 | in the same example one level further down, the same failure fails the registration |
| Registrar.Namespace.constructor | src/api/core.py:374-375 | a namespace starts with the generic schemas |
| Registrar.Namespace.RegisterApiModel | src/api/core.py:184-304 | the registration in place equals the registration function |
| Registrar.Namespace.RegisterCollected | src/api/core.py:241-304 | after the checks, the field loop and the four schemas in place equal the registration function |
| Registrar.Namespace.RegisterField | src/api/core.py:242-285 | one turn of the field loop, equal to one step of the function |
| Registrar.CollectFields | src/api/core.py:209-239 | the first unusable hybrid property fails with its name; otherwise the fields with the hybrid properties added |
| Validation.Validated | src/api/core.py:307-338 | a missing body is a BadRequest line (pointing at query arguments when there are some), a non-object body fails for lack of keys, bad keys are a BadRequest of lines, and success returns the posted object |
| Validation.ProblemOf | src/api/core.py:331-336 | a key not on the model is "not found"; one on the model but not in the payload schema is "read-only" |
| Validation.ProblemsComplete | src/api/core.py:331-336 | every problem belongs to a posted key, and every bad key has its problem reported |
| Validation.ValidateArgs | src/api/core.py:307-338 | the loop computes the validation outcome |
| Validation.AcceptedExactly | src/api/core.py:321-338 | a body is accepted exactly when every key is an attribute in the payload schema; it is then returned unchanged; otherwise every bad key is reported together |
| Conflicts.FindAllParens | src/api/core.py:455 | every match is a parenthesised group without `)` or line break, and there are at most half as many as characters |
| Conflicts.StopAt | src/api/core.py:455 | where a lazy group must stop: the first `)` or line break |
| Conflicts.OneGroup | src/api/core.py:455 | a parenthesised text without `)` or line break is one match |
| Conflicts.DuplicateGroups | src/api/core.py:454-455 | the two groups of a duplicate-key detail are its key and value |
| Conflicts.RewriteIntegrityError | src/api/core.py:450-458 | a unique violation becomes Conflict, its detail kept unless it starts with the duplicate-key text, which is rewritten when it has exactly two groups and raises a ValueError otherwise; any other integrity error is re-raised |
| Conflicts.DuplicateKeyRewritten | src/api/core.py:452-457 | a duplicate-key detail is rewritten to name its key and value |
| Conflicts.RouteAsWritten | src/api/core.py:460-609 | the handlers as written answer only 400, 409 or 500; NotFound is always 500, and ValueError is 400 only on update |
| Conflicts.Route | src/api/core.py:600-609 | the corrected routing: BadRequest and ValueError 400, NotFound 404, Conflict 409, anything else 500 |
| Conflicts.RoutingDiffers | src/api/core.py:460-609 | the handlers as written differ from that routing exactly on NotFound and on ValueError in the create handler |
| Conflicts.MissingRecordOnUpdate | src/api/core.py:583-609 | updating a missing record answers 500 as written, and 404 when corrected |
| Conflicts.MissingRelatedOnCreate | src/api/core.py:462-467 | a missing related id on create answers 500 as written, and 400 when corrected |

## Left out

- Flask-RESTX objects: `Namespace`, `Model`, `fields`, marshalling and documentation decorators. Schemas are ordered lists of named fields. The generic schemas are only names.
- SQLAlchemy query building and execution, and `generic_search`. Filters are produced as data and never applied. Session handles are opaque, and their commit, rollback and close are recorded as a trace.
- `url_for` is a function parameter that may fail. `uuid.uuid4()` is a fresh id passed in. `datetime.now()` is an integer `now`. `get` reads the clock twice, and the model uses one value for both reads.
- Logging, tracebacks, the truncated debug payload and the text of Python exception messages.
- Sessions.SessionManager.CacheRecord: the log holds a snapshot of the record's values, while Python holds a live reference to the record (records compare by value, as dataclasses). A record updated twice in one session is logged once in Python, and twice in the model when its values changed in between; `get_objects` then shows current values in Python and the logged ones in the model.
- Sessions.SessionManager.GetObjects: `as_dict` encoding through `json.dumps` is not modelled, because it depends on each record's JSON encoder.
- The `session` property's lazy `scoped_session` factory: the handle for a new session is a parameter.
- The session HTTP routes, the app factory, route wiring, templates and database configuration.
- Concurrency: the manager is modelled as a sequential object.
- Records.Record.ExposedIngest: a hook that mutates the record itself before returning a payload is not modelled. The hook is a pure function of the record's values and the payload.
- Records.Record.IngestPayload: opening and closing its own session when none is given is not modelled, and related records are reduced to their primary keys.
- Records.Found: the order in which the database returns related records is taken as the order of the supplied ids.
- `ApiLink._links`, the per-request property that finalises copies of the shared links, is not modelled. `finalise_links` and `finalise` are.
- Links.Format: template placeholders other than `endpoint_alias` always fail. Format specifications and attribute access inside placeholders are not modelled.
- Registrar: the type table is reduced to the names of its types, because `eval` of a type name and `get_type_hints` are reflection.
- Registrar: registration adds annotated hybrid properties to the class's own dataclass fields permanently. This class mutation is not modelled.
- Registrar: a name in the models module bound to something other than a class is not modelled.
- Registrar.Resolve: an annotation that is neither a mapped type, a class nor a string resolves to `object`, as in the source, and fails its module check; nothing more is left out here.
- Listing: the query string is read with `to_dict()`, so a repeated query argument keeps only its first value. Arguments are given already de-duplicated.
- Listing: the session opened by `session_manager.get` and leaked when a filter error follows is not modelled; ParseListRequest is given the set of sessions open after the sweep and only checks that the requested one is among them.
- Common.Lower: only ASCII letters are lower-cased; Python's `str.lower()` also lower-cases other letters, which matters only for class names outside ASCII, used for the default endpoint alias.
- Common.ParseInt: only ASCII digits are read; Python's `int()` also accepts other Unicode decimal digits, which can reach it only through query strings and credentials.
- Meta.Distinct: Python's `set` iterates in hashing order, which is not modelled; the model keeps first occurrences, and the following sort by `rel` fixes the order except among links of equal `rel`.
- Records: field values are strings, integers, booleans, null, string lists and id lists; floats, dates and nested objects are not modelled.
- Conflicts: the `ValueError` texts for a detail whose group count is not two follow CPython's unpacking messages.

## Findings

| source | as written | input that shows it | evidently intended | confidence | as-written member | corrected member |
|---|---|---|---|---|---|---|
| src/util.py:285-293 | the merged `Meta` lists the defaults before the model's `Meta`, so every attribute the merge does not set explicitly, `url_prefix` included, comes from the defaults | a model whose `Meta` declares `url_prefix = "parent/"` gets the prefix `""` and its namespace sits at `/child` | the declared prefix is kept, and the namespace sits at `/parent/child` | high, not executed | Meta.MergeAsWritten, Meta.UrlPrefixShadowed | Meta.Merge |
| src/api/core.py:199-278 | the recursion guard returns without registering, and the caller then looks up the sub-model's payload schema anyway | a model `Node` with a relationship to `Node` fails registration with a KeyError on `node-payload` | the guard stops the cycle, and the field that closes it is left out | high, not executed | Registrar.Register (AsWritten), Registrar.SelfReferenceFails | Registrar.Register (Corrected), Registrar.SelfReferenceRegistered |
| src/util.py:203-207 | missing related records are detected by comparing the number found with the number of ids supplied | ids `[1, 1]` when record 1 exists: one record is found, and a ValueError names no missing id | duplicates are not an error, and only absent ids are reported | medium, not executed | Records.ResolveAsWritten, Records.DuplicateIdRefused, Records.IngestSpec (AsWritten), Records.DuplicateIdIngest | Records.ResolveChecked, Records.IngestSpec (Corrected) |
| src/api/core.py:583-609 | the update handler raises NotFound inside the `try` whose `except Exception` turns it into an internal error | updating record 7 when it does not exist answers 500 | a missing record answers 404 | high, not executed | Conflicts.RouteAsWritten, Conflicts.MissingRecordOnUpdate | Conflicts.Route |
| src/api/core.py:460-467 | the create handler has no `except ValueError`, unlike the update handler, so an unresolvable related id becomes an internal error | creating a record with a relation to an id that does not exist answers 500 | an unresolvable related id answers 400, as it does on update | medium, not executed | Conflicts.RouteAsWritten, Conflicts.MissingRelatedOnCreate | Conflicts.Route |
