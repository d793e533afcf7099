/** Records of API-exposed models and their JSON form.

    A model class declares named fields; a field annotated `SqlMany` is a
    to-many relation to the table `target`, held in memory as the list of
    the related records (seen here only through their primary keys) and
    rendered in JSON as the list of those keys. Ingesting a payload assigns
    plain fields verbatim and resolves id lists against the related table,
    which is passed in as the set of primary keys it holds. */
module Records {
  import opened Common

  datatype FieldKind = Plain | SqlMany(target: string)

  type Fields = map<string, FieldKind>
  type Attrs = map<string, Value>

  /** An ordered JSON object, as the request handler receives it. */
  type Payload = seq<(string, Value)>

  /** The primary keys each table holds. */
  type Database = map<string, set<int>>

  function Table(db: Database, t: string): set<int> {
    if t in db then db[t] else {}
  }

  /** The model class itself: its name, its table, its declared fields and
      the class-level `Meta.endpoint_alias`, which link generation may fill
      in later. */
  class ModelClass {
    const name: string
    const tableName: string
    const fields: Fields
    var endpointAlias: Option<string>

    constructor (name: string, tableName: string, fields: Fields, endpointAlias: Option<string>)
      ensures this.name == name && this.tableName == tableName && this.fields == fields
      ensures this.endpointAlias == endpointAlias
    {
      this.name := name;
      this.tableName := tableName;
      this.fields := fields;
      this.endpointAlias := endpointAlias;
    }
  }

  /** Every declared field has a value; to-many fields hold related records
      and no plain field does. */
  predicate WellTyped(fields: Fields, attrs: Attrs) {
    && fields.Keys <= attrs.Keys
    && (forall f :: f in fields ==> (fields[f].SqlMany? <==> attrs[f].Related?))
  }

  /** A value that can arrive in a JSON payload. */
  predicate JsonValue(v: Value) {
    !v.Related?
  }

  /** The JSON form of a record: one entry per declared field, to-many
      relations flattened to the keys of the related records. */
  function JsonOf(fields: Fields, attrs: Attrs): (r: Attrs)
    requires WellTyped(fields, attrs)
    ensures r.Keys == fields.Keys
    ensures forall f :: f in r ==> JsonValue(r[f])
    ensures forall f :: f in fields && fields[f].SqlMany? ==> r[f] == IntList(attrs[f].refs)
    ensures forall f :: f in fields && fields[f].Plain? ==> r[f] == attrs[f]
  {
    map f | f in fields :: if fields[f].SqlMany? then IntList(attrs[f].refs) else attrs[f]
  }

  // ---------------------------------------------------------------------
  // Truncation

  /** Python's `s[:n]`: a negative `n` counts from the end. */
  function PyPrefix(s: string, n: int): (r: string)
    ensures |r| <= |s| && r == s[..|r|]
    ensures 0 <= n <= |s| ==> |r| == n
    ensures n > |s| ==> r == s
    ensures n < 0 ==> |r| == if |s| + n < 0 then 0 else |s| + n
  {
    if n >= 0 then (if n < |s| then s[..n] else s)
    else if |s| + n < 0 then [] else s[..|s| + n]
  }

  /** One value after truncation: strings longer than `n` are cut. */
  function TruncValue(v: Value, n: int): Value {
    if v.Str? && |v.s| > n then Str(PyPrefix(v.s, n)) else v
  }

  /** A JSON object with every string longer than `n` cut to its first
      `n` characters. */
  function Truncated(j: Attrs, n: int): (r: Attrs)
    ensures r.Keys == j.Keys
    ensures forall k :: k in j && !j[k].Str? ==> r[k] == j[k]
    ensures forall k :: k in j && j[k].Str? ==> r[k].Str? && |r[k].s| <= |j[k].s| && r[k].s == j[k].s[..|r[k].s|]
    ensures n >= 0 ==> forall k :: k in j && j[k].Str? ==>
      |r[k].s| == if |j[k].s| > n then n else |j[k].s|
  {
    map k | k in j :: TruncValue(j[k], n)
  }

  /** With a non-negative length, truncation bounds every string and a
      second truncation changes nothing. */
  lemma TruncatedBounded(j: Attrs, n: int)
    requires n >= 0
    ensures forall k :: k in Truncated(j, n) && Truncated(j, n)[k].Str? ==> |Truncated(j, n)[k].s| <= n
    ensures Truncated(Truncated(j, n), n) == Truncated(j, n)
  {
    var t := Truncated(j, n);
    forall k | k in t && t[k].Str?
      ensures |t[k].s| <= n
    {
      assert j[k].Str?;
    }
  }

  /** With a negative length, Python slicing drops characters from the end
      of every string, so a second truncation cuts again. */
  lemma NegativeLengthCutsAgain()
    ensures Truncated(map["name" := Str("abc")], -1) == map["name" := Str("ab")]
    ensures Truncated(Truncated(map["name" := Str("abc")], -1), -1) == map["name" := Str("a")]
  {
    assert PyPrefix("abc", -1) == "ab";
    assert PyPrefix("ab", -1) == "a";
  }

  // ---------------------------------------------------------------------
  // Resolving id lists

  /** The related records a query `id IN ids` returns: each existing id
      once. (Their database order is not modelled; payload order is used.) */
  function Found(table: set<int>, ids: seq<int>): (r: seq<int>)
    ensures NoDuplicates(r)
    ensures forall x :: x in r <==> x in ids && x in table
    ensures |r| <= |ids|
  {
    if ids == [] then []
    else
      var rest := Found(table, ids[..|ids| - 1]);
      var last := ids[|ids| - 1];
      assert forall x :: x in ids <==> x in ids[..|ids| - 1] || x == last;
      if last in table && last !in rest then rest + [last] else rest
  }

  /** The supplied ids that no record has, in payload order. */
  function Missing(table: set<int>, ids: seq<int>): (r: seq<int>)
    ensures forall x :: x in r <==> x in ids && x !in table
    ensures |r| <= |ids|
  {
    if ids == [] then []
    else (if ids[0] in table then [] else [ids[0]]) + Missing(table, ids[1..])
  }

  /** As written: the check compares the number of records found with the
      number of ids supplied, and reports the supplied ids not found
      (`Some(missed)` is the ValueError). */
  function ResolveAsWritten(table: set<int>, ids: seq<int>): (r: Option<seq<int>>)
    ensures r.None? <==> NoDuplicates(ids) && forall x :: x in ids ==> x in table
    ensures r.Some? ==> forall x :: x in r.value <==> x in ids && x !in table
  {
    FoundAll(table, ids);
    if |Found(table, ids)| != |ids| then Some(Missing(table, ids)) else None
  }

  /** Corrected: the error is raised exactly when some supplied id has no
      record, and it names exactly those ids. */
  function ResolveChecked(table: set<int>, ids: seq<int>): (r: Option<seq<int>>)
    ensures r.None? <==> forall x :: x in ids ==> x in table
    ensures r.Some? ==> r.value != [] && forall x :: x in r.value <==> x in ids && x !in table
  {
    var missed := Missing(table, ids);
    if missed != [] then
      var first := missed[0];
      assert first in missed;
      Some(missed)
    else
      assert forall x :: x in ids ==> x in table by {
        forall x | x in ids ensures x in table {
          assert x !in missed;
        }
      }
      None
  }

  /** Every supplied id is found once exactly when the ids are distinct and
      all present. */
  lemma {:induction false} FoundAll(table: set<int>, ids: seq<int>)
    ensures |Found(table, ids)| == |ids| <==> NoDuplicates(ids) && forall x :: x in ids ==> x in table
    ensures NoDuplicates(ids) && (forall x :: x in ids ==> x in table) ==> Found(table, ids) == ids
  {
    if ids != [] {
      var init := ids[..|ids| - 1];
      var last := ids[|ids| - 1];
      FoundAll(table, init);
      assert forall x :: x in ids <==> x in init || x == last;
      if NoDuplicates(ids) {
        assert NoDuplicates(init) by {
          forall i, j | 0 <= i < j < |init| ensures init[i] != init[j] {
            assert init[i] == ids[i] && init[j] == ids[j];
          }
        }
        assert last !in init by {
          forall i | 0 <= i < |init| ensures init[i] != last {
            assert init[i] == ids[i];
          }
        }
      } else if |Found(table, ids)| == |ids| {
        // then init is found completely and last is new, so ids is distinct
        var rest := Found(table, init);
        assert |rest| == |init| && last in table && last !in rest;
        assert NoDuplicates(init) && last !in init;
        assert NoDuplicates(ids) by {
          forall i, j | 0 <= i < j < |ids| ensures ids[i] != ids[j] {
            if j < |ids| - 1 {
              assert ids[i] == init[i] && ids[j] == init[j];
            } else {
              assert ids[i] == init[i];
            }
          }
        }
        assert false;
      }
    }
  }

  /** The discrepancy: a payload naming an existing record twice is
      refused, by an error that lists no id at all. */
  lemma DuplicateIdRefused()
    ensures ResolveAsWritten({1}, [1, 1]) == Some([])
    ensures ResolveChecked({1}, [1, 1]) == None
  {
    assert Found({1}, [1]) == [1];
    assert [1, 1][..1] == [1];
  }

  /** Where the ids are distinct, the two checks agree. */
  lemma ResolveAgrees(table: set<int>, ids: seq<int>)
    requires NoDuplicates(ids)
    ensures ResolveAsWritten(table, ids) == ResolveChecked(table, ids)
  {
    FoundAll(table, ids);
  }

  /** The check an ingest runs on an id list. */
  function CheckIds(v: Variant, table: set<int>, ids: seq<int>): Option<seq<int>> {
    match v
    case AsWritten => ResolveAsWritten(table, ids)
    case Corrected => ResolveChecked(table, ids)
  }

  // ---------------------------------------------------------------------
  // Ingesting a payload

  datatype IngestError =
    | UnknownField(key: string)                                   // KeyError: not a declared field
    | NotAnIdList(key: string)                                    // a to-many field given something other than a list of ids
    | MissingRecords(table: string, key: string, missed: seq<int>) // ValueError: ids with no record

  /** `", ".join(str(id) for id in ids)` */
  function JoinDecimals(ids: seq<int>): string {
    if ids == [] then ""
    else if |ids| == 1 then ToDecimal(ids[0])
    else ToDecimal(ids[0]) + ", " + JoinDecimals(ids[1..])
  }

  /** The text of the ValueError for ids that have no record. */
  function MissingMessage(table: string, key: string, missed: seq<int>): (m: string)
    ensures StartsWith(m, "Could not find `" + table + "." + key + "` records with value(s) ")
  {
    var head := "Could not find `" + table + "." + key + "` records with value(s) ";
    var m := head + JoinDecimals(missed);
    assert m[..|head|] == head;
    m
  }

  /** The attributes after an ingest, and the error that stopped it, if
      any. Assignments made before the error stay in place. */
  datatype Ingested = Ingested(attrs: Attrs, error: Option<IngestError>)

  /** Ingesting one payload entry: an undeclared key fails; a plain field
      takes the value; a to-many field takes the records its ids find, and
      the check `variant` names may then fail with the missed ids. */
  function IngestOne(variant: Variant, fields: Fields, tableName: string, db: Database, attrs: Attrs, key: string, v: Value)
    : (r: Ingested)
    ensures key !in fields <==> r.error == Some(UnknownField(key))
    ensures key !in fields ==> r.attrs == attrs
    ensures key in fields && fields[key].Plain? ==> r == Ingested(attrs[key := v], None)
    ensures key in fields && fields[key].SqlMany? && !v.IntList? ==> r == Ingested(attrs, Some(NotAnIdList(key)))
    ensures key in fields && fields[key].SqlMany? && v.IntList? ==>
      var table := Table(db, fields[key].target);
      && r.attrs == attrs[key := Related(Found(table, v.ids))]
      && (r.error.None? <==> CheckIds(variant, table, v.ids).None?)
      && (r.error.Some? ==> r.error.value == MissingRecords(tableName, key, CheckIds(variant, table, v.ids).value))
  {
    if key !in fields then Ingested(attrs, Some(UnknownField(key)))
    else match fields[key]
      case Plain => Ingested(attrs[key := v], None)
      case SqlMany(target) =>
        if !v.IntList? then Ingested(attrs, Some(NotAnIdList(key)))
        else
          var table := Table(db, target);
          var withRelated := attrs[key := Related(Found(table, v.ids))];
          match CheckIds(variant, table, v.ids)
          case Some(missed) => Ingested(withRelated, Some(MissingRecords(tableName, key, missed)))
          case None => Ingested(withRelated, None)
  }

  /** Ingesting a payload entry by entry, stopping at the first error. */
  function IngestSpec(variant: Variant, fields: Fields, tableName: string, db: Database, attrs: Attrs, payload: Payload)
    : (r: Ingested)
    ensures r.error.None? ==> forall i :: 0 <= i < |payload| ==> payload[i].0 in fields
    ensures r.error.Some? && r.error.value.UnknownField? ==> r.error.value.key !in fields
    decreases |payload|
  {
    if payload == [] then Ingested(attrs, None)
    else
      var step := IngestOne(variant, fields, tableName, db, attrs, payload[0].0, payload[0].1);
      if step.error.Some? then step
      else
        var r := IngestSpec(variant, fields, tableName, db, step.attrs, payload[1..]);
        assert forall i :: 1 <= i < |payload| ==> payload[i] == payload[1..][i - 1];
        r
  }

  /** The discrepancy, in the ingest itself: naming an existing related
      record twice stops the ingest as written with an error that lists no
      id, while the corrected ingest relates the record once. */
  lemma DuplicateIdIngest(tableName: string, attrs: Attrs)
    ensures var fields := map["children" := SqlMany("child")];
      var db := map["child" := {1}];
      var payload := [("children", IntList([1, 1]))];
      && IngestSpec(AsWritten, fields, tableName, db, attrs, payload).error == Some(MissingRecords(tableName, "children", []))
      && IngestSpec(Corrected, fields, tableName, db, attrs, payload) == Ingested(attrs["children" := Related([1])], None)
  {
    var fields := map["children" := SqlMany("child")];
    var db := map["child" := {1}];
    FoundTwice();
    DuplicateIdRefused();
    IngestSingle(AsWritten, fields, tableName, db, attrs, "children", IntList([1, 1]));
    DuplicateStepAsWritten(tableName, attrs);
    IngestSingle(Corrected, fields, tableName, db, attrs, "children", IntList([1, 1]));
    DuplicateStepCorrected(tableName, attrs);
  }

  /** A one-entry payload is ingested by its one step. */
  lemma IngestSingle(variant: Variant, fields: Fields, tableName: string, db: Database, attrs: Attrs, key: string, v: Value)
    ensures IngestSpec(variant, fields, tableName, db, attrs, [(key, v)])
         == IngestOne(variant, fields, tableName, db, attrs, key, v)
  {
    assert [(key, v)][1..] == [];
  }

  /** The ingest step for that payload, as written: it fails. */
  lemma DuplicateStepAsWritten(tableName: string, attrs: Attrs)
    requires Found({1}, [1, 1]) == [1] && ResolveAsWritten({1}, [1, 1]) == Some([])
    ensures IngestOne(AsWritten, map["children" := SqlMany("child")], tableName, map["child" := {1}], attrs,
                      "children", IntList([1, 1])).error
         == Some(MissingRecords(tableName, "children", []))
  {
    assert Table(map["child" := {1}], "child") == {1};
  }

  /** The ingest step for that payload, corrected: it relates record 1. */
  lemma DuplicateStepCorrected(tableName: string, attrs: Attrs)
    requires Found({1}, [1, 1]) == [1] && ResolveChecked({1}, [1, 1]) == None
    ensures IngestOne(Corrected, map["children" := SqlMany("child")], tableName, map["child" := {1}], attrs,
                      "children", IntList([1, 1]))
         == Ingested(attrs["children" := Related([1])], None)
  {
    assert Table(map["child" := {1}], "child") == {1};
  }

  lemma FoundTwice()
    ensures Found({1}, [1, 1]) == [1]
  {
    assert Found({1}, [1]) == [1];
    assert [1, 1][..1] == [1];
  }

  predicate KeyIn(key: string, payload: Payload) {
    exists i :: 0 <= i < |payload| && payload[i].0 == key
  }

  /** Ingest touches nothing outside the payload's keys, and keeps a record
      well typed when the payload holds JSON values. */
  lemma {:induction false} IngestFrame(variant: Variant, fields: Fields, tableName: string, db: Database, attrs: Attrs,
                                       payload: Payload)
    ensures var r := IngestSpec(variant, fields, tableName, db, attrs, payload);
      forall k :: !KeyIn(k, payload) ==> (k in r.attrs <==> k in attrs) && (k in attrs ==> r.attrs[k] == attrs[k])
    ensures WellTyped(fields, attrs) && (forall i :: 0 <= i < |payload| ==> JsonValue(payload[i].1)) ==>
      WellTyped(fields, IngestSpec(variant, fields, tableName, db, attrs, payload).attrs)
    decreases |payload|
  {
    if payload != [] {
      var step := IngestOne(variant, fields, tableName, db, attrs, payload[0].0, payload[0].1);
      if step.error.None? {
        IngestFrame(variant, fields, tableName, db, step.attrs, payload[1..]);
        forall k | KeyIn(k, payload[1..])
          ensures KeyIn(k, payload)
        {
          var i :| 0 <= i < |payload[1..]| && payload[1..][i].0 == k;
          assert payload[i + 1].0 == k;
        }
        assert KeyIn(payload[0].0, payload);
      }
    }
  }

  /** The payload whose keys are `keys` and whose values are taken from the
      JSON object `j`. */
  function PayloadOf(j: Attrs, keys: seq<string>): (p: Payload)
    requires forall k :: k in keys ==> k in j
    ensures |p| == |keys|
    ensures forall i :: 0 <= i < |keys| ==> p[i] == (keys[i], j[keys[i]])
  {
    if keys == [] then [] else [(keys[0], j[keys[0]])] + PayloadOf(j, keys[1..])
  }

  /** Round trip: ingesting a record's own JSON (any of its fields, in any
      order) into any record succeeds and reproduces the record's values,
      provided its related records exist and are listed once. Both checks
      accept it. */
  lemma {:induction false} JsonRoundTrip(variant: Variant, fields: Fields, tableName: string, db: Database, attrs: Attrs,
                                         base: Attrs, keys: seq<string>)
    requires WellTyped(fields, attrs)
    requires forall k :: k in keys ==> k in fields
    requires forall f :: f in fields && fields[f].SqlMany? ==>
      NoDuplicates(attrs[f].refs) && forall x :: x in attrs[f].refs ==> x in Table(db, fields[f].target)
    ensures var r := IngestSpec(variant, fields, tableName, db, base, PayloadOf(JsonOf(fields, attrs), keys));
      r.error.None? && forall k :: k in keys ==> k in r.attrs && r.attrs[k] == attrs[k]
    decreases |keys|
  {
    var j := JsonOf(fields, attrs);
    var p := PayloadOf(j, keys);
    if keys != [] {
      var k := keys[0];
      var step := IngestOne(variant, fields, tableName, db, base, k, j[k]);
      if fields[k].SqlMany? {
        var table := Table(db, fields[k].target);
        FoundAll(table, attrs[k].refs);
        ResolveAgrees(table, attrs[k].refs);
        assert CheckIds(variant, table, attrs[k].refs) == None;
      }
      assert step == Ingested(base[k := attrs[k]], None);
      assert p[1..] == PayloadOf(j, keys[1..]);
      JsonRoundTrip(variant, fields, tableName, db, attrs, step.attrs, keys[1..]);
      var r := IngestSpec(variant, fields, tableName, db, step.attrs, p[1..]);
      forall k' | k' in keys
        ensures k' in r.attrs && r.attrs[k'] == attrs[k']
      {
        if k' !in keys[1..] {
          assert k' == k;
          forall k2 | KeyIn(k2, p[1..])
            ensures k2 in keys[1..]
          {
            var i :| 0 <= i < |p[1..]| && p[1..][i].0 == k2;
            assert keys[1..][i] == k2;
          }
          IngestFrame(variant, fields, tableName, db, step.attrs, p[1..]);
        }
      }
    }
  }

  // ---------------------------------------------------------------------
  // A record instance

  class Record {
    const model: ModelClass
    var attrs: Attrs

    ghost predicate Valid()
      reads this
    {
      WellTyped(model.fields, attrs)
    }

    constructor (model: ModelClass, attrs: Attrs)
      requires WellTyped(model.fields, attrs)
      ensures Valid() && this.model == model && this.attrs == attrs
    {
      this.model := model;
      this.attrs := attrs;
    }

    /** The `json` property. */
    function Json(): (r: Attrs)
      reads this
      requires Valid()
      ensures r.Keys == model.fields.Keys
    {
      JsonOf(model.fields, attrs)
    }

    /** `to_json`: the JSON form, with long strings cut when asked. */
    method ToJson(truncate: bool, truncLength: int) returns (r: Attrs)
      requires Valid()
      ensures r.Keys == model.fields.Keys
      ensures !truncate ==> r == Json()
      ensures truncate ==> r == Truncated(Json(), truncLength)
    {
      r := Json();
      if truncate {
        ghost var j := r;
        var pending := r.Keys;
        while pending != {}
          invariant pending <= j.Keys && r.Keys == j.Keys
          invariant forall k :: k in j ==> r[k] == if k in pending then j[k] else TruncValue(j[k], truncLength)
          decreases pending
        {
          var k :| k in pending;
          if r[k].Str? && |r[k].s| > truncLength {
            r := r[k := Str(PyPrefix(r[k].s, truncLength))];
          }
          pending := pending - {k};
        }
      }
    }

    /** `ApiExposed.ingest_payload`: assign the payload's entries in order,
        stopping at the first error; the assignments already made stay.
        `AsWritten` checks an id list by counting the records found; a
        record stays well typed when the payload holds JSON values. */
    method IngestPayload(payload: Payload, db: Database, variant: Variant) returns (err: Option<IngestError>)
      requires Valid()
      modifies this
      ensures Ingested(attrs, err) == IngestSpec(variant, model.fields, model.tableName, db, old(attrs), payload)
      ensures (forall i :: 0 <= i < |payload| ==> JsonValue(payload[i].1)) ==> Valid()
    {
      IngestFrame(variant, model.fields, model.tableName, db, attrs, payload);
      var i := 0;
      while i < |payload|
        invariant 0 <= i <= |payload|
        invariant IngestSpec(variant, model.fields, model.tableName, db, attrs, payload[i..])
               == IngestSpec(variant, model.fields, model.tableName, db, old(attrs), payload)
        decreases |payload| - i
      {
        var (key, v) := payload[i];
        assert payload[i..][1..] == payload[i + 1..];
        if key !in model.fields {
          return Some(UnknownField(key));
        }
        if model.fields[key].Plain? {
          attrs := attrs[key := v];
        } else {
          if !v.IntList? {
            return Some(NotAnIdList(key));
          }
          var table := Table(db, model.fields[key].target);
          attrs := attrs[key := Related(Found(table, v.ids))];
          var check := CheckIds(variant, table, v.ids);
          if check.Some? {
            return Some(MissingRecords(model.tableName, key, check.value));
          }
        }
        i := i + 1;
      }
      return None;
    }

    /** The `ingest_payload` installed on an exposed class: the model's own
        `_ingest_payload` hook, if any, rewrites the payload first. */
    method ExposedIngest(hook: Option<(Attrs, Payload) -> Payload>, payload: Payload, db: Database, variant: Variant)
      returns (err: Option<IngestError>)
      requires Valid()
      modifies this
      ensures var p := if hook.Some? then hook.value(old(attrs), payload) else payload;
        && Ingested(attrs, err) == IngestSpec(variant, model.fields, model.tableName, db, old(attrs), p)
        && ((forall i :: 0 <= i < |p| ==> JsonValue(p[i].1)) ==> Valid())
    {
      var p := payload;
      if hook.Some? {
        p := hook.value(attrs, payload);
      }
      err := IngestPayload(p, db, variant);
    }
  }
}
