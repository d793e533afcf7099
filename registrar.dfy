/** Registration of the API schema ("API model") that describes an exposed
    database model, with the schemas of the models it refers to registered
    first, recursively.

    The reflection the registration performs (type hints, the ORM's
    descriptors, probing a hybrid property on the class) is given here as
    plain data: a `Universe` of class descriptions. */
module Registrar {
  import opened Common

  // ---------------------------------------------------------------------
  // The classes the registration reads

  /** A field's type annotation, as the registration sees it. */
  datatype Annotation =
    | Mapped(kind: string)    // a type of the conversion table, or its name
    | ClassRef(cls: string)   // a class object (here: its key in the universe)
    | NameRef(name: string)   // any other string: a name in the models module
    | Unresolvable            // anything else; it resolves to `object`

  /** One entry of the class's dataclass fields; `relation` is the
      relationship's `uselist` flag, `None` when the attribute is not a
      relationship (it then has no `property.uselist`). */
  datatype Field = Field(name: string, annotation: Annotation, relation: Option<bool>)

  /** A hybrid property: its return annotation if it has one, whether a
      class-level expression is declared, whether its getter can be read on
      the class itself, and whether it has a setter. `relation` is the
      `uselist` flag of the relationship its value on the class is, `None`
      when that value is not a relationship. */
  datatype Hybrid = Hybrid(name: string, annotation: Option<Annotation>, hasExpression: bool,
                           getterWorksOnClass: bool, hasSetter: bool, relation: Option<bool>)

  datatype ClassDesc = ClassDesc(
    qualName: string,
    exposed: bool,          // decorated to be exposed, so it has a `Meta`
    inModelsModule: bool,   // `__module__ == 'models'`
    isDbModel: bool,        // a subclass of the database's `Model`
    tableName: string,
    fields: seq<Field>,
    hybrids: seq<Hybrid>,
    readOnly: set<string>)

  /** Every class by key, and the names the models module binds to classes. */
  datatype Universe = Universe(classes: map<string, ClassDesc>, modelsModule: map<string, string>)

  predicate Known(u: Universe, a: Annotation) {
    a.ClassRef? ==> a.cls in u.classes
  }

  /** A class object named in an annotation always exists, and the models
      module binds names only to classes. */
  predicate WellFormed(u: Universe) {
    && (forall n | n in u.modelsModule :: u.modelsModule[n] in u.classes)
    && (forall k | k in u.classes ::
          && (forall f | f in u.classes[k].fields :: Known(u, f.annotation))
          && (forall h | h in u.classes[k].hybrids && h.annotation.Some? :: Known(u, h.annotation.value)))
  }

  function Tables(u: Universe): set<string> {
    set k | k in u.classes :: u.classes[k].tableName
  }

  // ---------------------------------------------------------------------
  // The namespace's schemas

  datatype ApiField =
    | Prim(kind: string)        // a field of the conversion table
    | Nested(schema: string)    // a nested object, by the name of its schema
    | NestedList(schema: string)

  /** An ordered dictionary from field names to fields. */
  type Schema = seq<(string, ApiField)>

  datatype NsModel =
    | Fields(schema: Schema)
    | Inherits(base: string, schema: Schema)
    | Wrapped(base: string, record: string, many: bool)

  type Models = map<string, NsModel>

  function Keys(s: Schema): set<string> {
    set p | p in s :: p.0
  }

  /** `d[k] = v` on an ordered dictionary: in place if `k` is present,
      appended otherwise. */
  function Put(s: Schema, k: string, v: ApiField): (r: Schema)
    ensures Keys(r) == Keys(s) + {k}
    ensures (k, v) in r
    ensures forall p | p in r :: p == (k, v) || p in s
  {
    if s == [] then [(k, v)]
    else if s[0].0 == k then [(k, v)] + s[1..]
    else
      var rest := Put(s[1..], k, v);
      assert s == [s[0]] + s[1..];
      assert Keys(s) == {s[0].0} + Keys(s[1..]);
      assert Keys([s[0]] + rest) == {s[0].0} + Keys(rest);
      [s[0]] + rest
  }

  /** The names of the schemas the fields of `s` nest. */
  predicate NestsOnly(s: Schema, names: set<string>) {
    forall p | p in s && !p.1.Prim? :: p.1.schema in names
  }

  /** The request payload's fields: those of `api` except the read-only ones
      and the hybrid properties without a setter, in their order. */
  function PayloadFields(api: Schema, readOnly: set<string>, noSetter: set<string>): (p: Schema)
    ensures forall k :: k in Keys(p) <==> k in Keys(api) && k !in readOnly && k !in noSetter
    ensures forall q | q in p :: q in api
  {
    if api == [] then []
    else
      var rest := PayloadFields(api[1..], readOnly, noSetter);
      assert api == [api[0]] + api[1..];
      if api[0].0 in readOnly || api[0].0 in noSetter then rest else [api[0]] + rest
  }

  // ---------------------------------------------------------------------
  // Fields and hybrid properties

  /** The first type-annotated hybrid property that has neither a class-level
      expression nor a getter that works on the class. */
  function UnusableHybrid(hs: seq<Hybrid>): (r: Option<Hybrid>)
    ensures r.Some? ==> r.value in hs && r.value.annotation.Some? && !r.value.hasExpression && !r.value.getterWorksOnClass
    ensures r.None? ==> forall h | h in hs && h.annotation.Some? :: h.hasExpression || h.getterWorksOnClass
  {
    if hs == [] then None
    else if hs[0].annotation.Some? && !hs[0].hasExpression && !hs[0].getterWorksOnClass then Some(hs[0])
    else
      assert hs == [hs[0]] + hs[1..];
      UnusableHybrid(hs[1..])
  }

  function FieldNames(fs: seq<Field>): set<string> {
    set f | f in fs :: f.name
  }

  /** The names of the fields whose type is in the conversion table. */
  function MappedNames(fs: seq<Field>): set<string> {
    set f | f in fs && f.annotation.Mapped? :: f.name
  }

  /** `model_fields[f.name] = f`. */
  function PutField(fs: seq<Field>, f: Field): (r: seq<Field>)
    ensures FieldNames(r) == FieldNames(fs) + {f.name}
    ensures forall g | g in r :: g == f || g in fs
  {
    if fs == [] then [f]
    else if fs[0].name == f.name then [f] + fs[1..]
    else
      assert fs == [fs[0]] + fs[1..];
      assert FieldNames(fs) == {fs[0].name} + FieldNames(fs[1..]);
      var rest := PutField(fs[1..], f);
      assert FieldNames([fs[0]] + rest) == {fs[0].name} + FieldNames(rest);
      [fs[0]] + rest
  }

  /** The dataclass fields with every annotated hybrid property added as a
      field of its return type. */
  function WithHybrids(fs: seq<Field>, hs: seq<Hybrid>): (r: seq<Field>)
    ensures FieldNames(r) == FieldNames(fs) + (set h | h in hs && h.annotation.Some? :: h.name)
    ensures forall g | g in r :: g in fs || exists h | h in hs :: h.annotation == Some(g.annotation) && h.relation == g.relation
    decreases |hs|
  {
    if hs == [] then fs
    else
      assert hs == [hs[0]] + hs[1..];
      var next := if hs[0].annotation.Some? then PutField(fs, Field(hs[0].name, hs[0].annotation.value, hs[0].relation)) else fs;
      WithHybrids(next, hs[1..])
  }

  function AllFields(c: ClassDesc): seq<Field> {
    WithHybrids(c.fields, c.hybrids)
  }

  /** The annotated hybrid properties without a setter. */
  function NoSetter(c: ClassDesc): set<string> {
    set h | h in c.hybrids && h.annotation.Some? && !h.hasSetter :: h.name
  }

  lemma AllFieldsKnown(u: Universe, k: string)
    requires WellFormed(u) && k in u.classes
    ensures forall f | f in AllFields(u.classes[k]) :: Known(u, f.annotation)
  {
    var c := u.classes[k];
    forall f | f in AllFields(c) ensures Known(u, f.annotation) {
      if f !in c.fields {
        var h :| h in c.hybrids && h.annotation == Some(f.annotation);
      }
    }
  }

  // ---------------------------------------------------------------------
  // Registration

  datatype AssertionKind =
    | HybridNeedsExpression(model: string, property: string)
    | NotInModelsModule(model: string)
    | NotADbModel(model: string)

  datatype RegError =
    | NotExposed(model: string)           // AttributeError: the class has no `Meta`
    | AssertionFailed(kind: AssertionKind)
    | UnknownName(name: string)           // KeyError: the name is not in the models module
    | MissingSubSchema(key: string)       // KeyError: the namespace has no such schema
    | NotARelation(field: string)         // AttributeError: no `property.uselist`

  datatype Outcome = Registered | Halted

  /** The namespace after a registration, and its outcome. */
  datatype Step = Step(ns: Models, outcome: Result<Outcome, RegError>)

  datatype FieldsStep = FieldsStep(ns: Models, fields: Result<Schema, RegError>)

  // Registration `AsWritten` indexes the sub-schema's payload even after
  // the recursion guard declined to register it; `Corrected` leaves such a
  // field out.

  /** The class a non-table annotation resolves to. */
  function Resolve(u: Universe, a: Annotation): (r: Result<string, RegError>)
    requires WellFormed(u) && Known(u, a) && !a.Mapped?
    ensures r.Success? ==> r.value in u.classes
    ensures r.Failure? ==> (a.NameRef? && r.error == UnknownName(a.name)) || (a.Unresolvable? && r.error == AssertionFailed(NotInModelsModule("object")))
  {
    match a
    case ClassRef(cls) => Success(cls)
    case NameRef(n) => if n in u.modelsModule then Success(u.modelsModule[n]) else Failure(UnknownName(n))
    case Unresolvable => Failure(AssertionFailed(NotInModelsModule("object")))
  }

  function Elements(path: seq<string>): set<string> {
    set x | x in path
  }

  lemma Shrinks(bound: set<string>, path: seq<string>, name: string)
    requires name in bound && name !in path
    ensures |bound - Elements(path + [name])| < |bound - Elements(path)|
  {
    assert Elements(path + [name]) == Elements(path) + {name};
    assert bound - Elements(path + [name]) == (bound - Elements(path)) - {name};
  }

  /** The four schemas a successful registration adds under `name`. */
  function Publish(ns: Models, name: string, api: Schema, payload: Schema): (r: Models)
    ensures r.Keys == ns.Keys + {name, name + "-payload", name + "-response", name + "-detailed"}
    ensures r[name] == Inherits("record-base", api) && r[name + "-payload"] == Fields(payload)
    ensures forall k :: k in ns && k !in {name, name + "-payload", name + "-response", name + "-detailed"} ==> r[k] == ns[k]
  {
    ns[name + "-payload" := Fields(payload)]
      [name := Inherits("record-base", api)]
      [name + "-response" := Wrapped("base", name, false)]
      [name + "-detailed" := Wrapped("base-paginated", name, true)]
  }

  /** Registering class `cls` under `name`; `path` holds the names of the
      registrations this one is nested in, and `bound` every name a
      registration can use, which makes the recursion finite. */
  function Register(u: Universe, v: Variant, bound: set<string>, ns: Models, cls: string, name: string, path: seq<string>): (s: Step)
    requires WellFormed(u) && cls in u.classes && Tables(u) <= bound && name in bound
    ensures ns.Keys <= s.ns.Keys
    ensures s.outcome == Success(Halted) <==> u.classes[cls].exposed && name in path
    ensures s.outcome == Success(Registered) ==>
      && name in s.ns && s.ns[name].Inherits? && name + "-payload" in s.ns
      && NestsOnly(s.ns[name].schema, s.ns.Keys)
      && MappedNames(AllFields(u.classes[cls])) <= Keys(s.ns[name].schema) <= FieldNames(AllFields(u.classes[cls]))
      && s.ns[name + "-payload"] == Fields(PayloadFields(s.ns[name].schema, u.classes[cls].readOnly, NoSetter(u.classes[cls])))
    ensures v == Corrected ==> !(s.outcome.Failure? && s.outcome.error.MissingSubSchema?)
    decreases |bound - Elements(path)|, 1, 0
  {
    var c := u.classes[cls];
    if !c.exposed then Step(ns, Failure(NotExposed(c.qualName)))
    else if name in path then Step(ns, Success(Halted))
    else
      var bad := UnusableHybrid(c.hybrids);
      if bad.Some? then Step(ns, Failure(AssertionFailed(HybridNeedsExpression(c.qualName, bad.value.name))))
      else
        AllFieldsKnown(u, cls);
        var r := RegisterFields(u, v, bound, ns, name, path, AllFields(c), []);
        match r.fields
        case Failure(e) => Step(r.ns, Failure(e))
        case Success(api) => Step(Publish(r.ns, name, api, PayloadFields(api, c.readOnly, NoSetter(c))), Success(Registered))
  }

  /** The field loop of the registration of `name`, from the fields in
      `fields` onwards, with the schema `api` built so far. */
  function RegisterFields(u: Universe, v: Variant, bound: set<string>, ns: Models, name: string, path: seq<string>,
                          fields: seq<Field>, api: Schema): (r: FieldsStep)
    requires WellFormed(u) && Tables(u) <= bound && name in bound && name !in path
    requires forall f | f in fields :: Known(u, f.annotation)
    ensures ns.Keys <= r.ns.Keys
    ensures r.fields.Success? ==> Keys(api) + MappedNames(fields) <= Keys(r.fields.value) <= Keys(api) + FieldNames(fields)
    ensures r.fields.Success? && NestsOnly(api, ns.Keys) ==> NestsOnly(r.fields.value, r.ns.Keys)
    ensures v == Corrected ==> !(r.fields.Failure? && r.fields.error.MissingSubSchema?)
    decreases |bound - Elements(path)|, 0, |fields|
  {
    if fields == [] then FieldsStep(ns, Success(api))
    else
      var f := fields[0];
      assert fields == [f] + fields[1..];
      assert FieldNames(fields) == {f.name} + FieldNames(fields[1..]);
      assert MappedNames(fields) == (if f.annotation.Mapped? then {f.name} else {}) + MappedNames(fields[1..]);
      if f.annotation.Mapped? then
        RegisterFields(u, v, bound, ns, name, path, fields[1..], Put(api, f.name, Prim(f.annotation.kind)))
      else
        var target := Resolve(u, f.annotation);
        if target.Failure? then FieldsStep(ns, Failure(target.error))
        else
          var sub := u.classes[target.value];
          if !sub.inModelsModule then FieldsStep(ns, Failure(AssertionFailed(NotInModelsModule(sub.qualName))))
          else if !sub.isDbModel then FieldsStep(ns, Failure(AssertionFailed(NotADbModel(sub.qualName))))
          else
            var t := sub.tableName;
            assert t in Tables(u);
            Shrinks(bound, path, name);
            var st := if t in ns then Step(ns, Success(Registered))
                      else Register(u, v, bound, ns, target.value, t, path + [name]);
            if st.outcome.Failure? then
              if st.outcome.error.AssertionFailed? && path == [] then
                RegisterFields(u, v, bound, st.ns, name, path, fields[1..], api)
              else FieldsStep(st.ns, Failure(st.outcome.error))
            else
              var key := t + "-payload";
              if key !in st.ns then
                if v == AsWritten then FieldsStep(st.ns, Failure(MissingSubSchema(key)))
                else RegisterFields(u, v, bound, st.ns, name, path, fields[1..], api)
              else if f.relation.None? then FieldsStep(st.ns, Failure(NotARelation(f.name)))
              else
                var nested := if f.relation.value then NestedList(key) else Nested(key);
                RegisterFields(u, v, bound, st.ns, name, path, fields[1..], Put(api, f.name, nested))
  }

  /** The registration of an exposed class that is not already being
      registered and whose hybrid properties are usable: the field loop,
      then the four schemas. */
  lemma RegisterUnfolds(u: Universe, v: Variant, bound: set<string>, ns: Models, cls: string, name: string, path: seq<string>)
    requires WellFormed(u) && cls in u.classes && Tables(u) <= bound && name in bound
    requires u.classes[cls].exposed && name !in path && UnusableHybrid(u.classes[cls].hybrids).None?
    ensures forall f | f in AllFields(u.classes[cls]) :: Known(u, f.annotation)
    ensures var c := u.classes[cls];
      var r := RegisterFields(u, v, bound, ns, name, path, AllFields(c), []);
      Register(u, v, bound, ns, cls, name, path)
        == if r.fields.Failure? then Step(r.ns, Failure(r.fields.error))
           else Step(Publish(r.ns, name, r.fields.value, PayloadFields(r.fields.value, c.readOnly, NoSetter(c))), Success(Registered))
  {
    AllFieldsKnown(u, cls);
  }

  // ---------------------------------------------------------------------
  // A model that refers to itself

  /** One exposed model `Node` (table `node`) whose `children` relationship
      holds more `Node`s. */
  function SelfReferencing(): Universe {
    Universe(map["Node" := ClassDesc("Node", true, true, true, "node",
                                      [Field("children", ClassRef("Node"), Some(true))], [], {"id"})],
             map[])
  }

  /** As written, registering `Node` fails: the nested registration of
      `node` is halted by the guard, and the schema `node-payload` it would
      have added is then looked up anyway. */
  lemma SelfReferenceFails()
    ensures Register(SelfReferencing(), AsWritten, {"node"}, map[], "Node", "node", []).outcome
         == Failure(MissingSubSchema("node-payload"))
  {
    var u := SelfReferencing();
    var fs := [Field("children", ClassRef("Node"), Some(true))];
    assert AllFields(u.classes["Node"]) == fs;
    var halted := Register(u, AsWritten, {"node"}, map[], "Node", "node", ["node"]);
    assert halted == Step(map[], Success(Halted));
    assert [] + ["node"] == ["node"];
    assert "node" + "-payload" == "node-payload";
    assert Resolve(u, ClassRef("Node")) == Success("Node");
    assert RegisterFields(u, AsWritten, {"node"}, map[], "node", [], fs, []).fields
        == Failure(MissingSubSchema("node-payload"));
  }

  /** Corrected, `Node` is registered without the field that would nest
      itself. */
  lemma SelfReferenceRegistered()
    ensures var s := Register(SelfReferencing(), Corrected, {"node"}, map[], "Node", "node", []);
      s.outcome == Success(Registered) && s.ns["node"] == Inherits("record-base", [])
  {
    var u := SelfReferencing();
    var fs := [Field("children", ClassRef("Node"), Some(true))];
    assert AllFields(u.classes["Node"]) == fs;
    var halted := Register(u, Corrected, {"node"}, map[], "Node", "node", ["node"]);
    assert halted == Step(map[], Success(Halted));
    assert RegisterFields(u, Corrected, {"node"}, map[], "node", [], fs[1..], []) == FieldsStep(map[], Success([]));
    assert RegisterFields(u, Corrected, {"node"}, map[], "node", [], fs, []) == FieldsStep(map[], Success([]));
  }

  /** `Parent` nests `Child`, whose annotated hybrid property `age` can be
      read neither through an expression nor on the class. */
  function FaultyChild(): Universe {
    var child := ClassDesc("Child", true, true, true, "child", [], [Hybrid("age", Some(Mapped("int")), false, false, false, None)], {});
    var parent := ClassDesc("Parent", true, true, true, "parent", [Field("kid", ClassRef("Child"), Some(false))], [], {});
    Universe(map["Child" := child, "Parent" := parent], map[])
  }

  /** What registering inside `FaultyChild` reads: its tables, the one
      field of `Parent`, the class that field names, and `Child`'s unusable
      hybrid property. */
  lemma FaultyChildFacts()
    ensures var u := FaultyChild();
      && WellFormed(u)
      && Tables(u) == {"parent", "child"}
      && AllFields(u.classes["Parent"]) == [Field("kid", ClassRef("Child"), Some(false))]
      && Resolve(u, ClassRef("Child")) == Success("Child")
      && UnusableHybrid(u.classes["Child"].hybrids) == Some(Hybrid("age", Some(Mapped("int")), false, false, false, None))
  {
    var u := FaultyChild();
    assert Tables(u) == {"parent", "child"} by {
      assert u.classes["Child"].tableName == "child" && u.classes["Parent"].tableName == "parent";
    }
  }

  /** A sub-model's assertion failure costs the top-level registration only
      the field that nests it. */
  lemma SubModelFailureSkipped()
    ensures var s := Register(FaultyChild(), Corrected, {"parent", "child"}, map[], "Parent", "parent", []);
      s.outcome == Success(Registered) && s.ns["parent"] == Inherits("record-base", [])
  {
    var u := FaultyChild();
    FaultyChildFacts();
    var fs := [Field("kid", ClassRef("Child"), Some(false))];
    assert Register(u, Corrected, {"parent", "child"}, map[], "Child", "child", ["parent"]).outcome
        == Failure(AssertionFailed(HybridNeedsExpression("Child", "age")));
    assert RegisterFields(u, Corrected, {"parent", "child"}, map[], "parent", [], fs, []) == FieldsStep(map[], Success([]));
  }

  /** One level further down, the same failure fails the registration. */
  lemma SubModelFailurePropagates()
    ensures Register(FaultyChild(), Corrected, {"parent", "child", "top"}, map[], "Parent", "parent", ["top"]).outcome
         == Failure(AssertionFailed(HybridNeedsExpression("Child", "age")))
  {
    var u := FaultyChild();
    FaultyChildFacts();
    var fs := [Field("kid", ClassRef("Child"), Some(false))];
    assert Register(u, Corrected, {"parent", "child", "top"}, map[], "Child", "child", ["top", "parent"]).outcome
        == Failure(AssertionFailed(HybridNeedsExpression("Child", "age")));
    assert ["top"] + ["parent"] == ["top", "parent"];
    assert RegisterFields(u, Corrected, {"parent", "child", "top"}, map[], "parent", ["top"], fs, []).fields
        == Failure(AssertionFailed(HybridNeedsExpression("Child", "age")));
  }

  /** `Parent` reaches its `Child` records only through an annotated hybrid
      property `kids`, usable on the class, whose value there is a
      to-many relationship. */
  function HybridRelation(): Universe {
    var child := ClassDesc("Child", true, true, true, "child", [], [], {});
    var parent := ClassDesc("Parent", true, true, true, "parent", [],
                            [Hybrid("kids", Some(ClassRef("Child")), false, true, false, Some(true))], {});
    Universe(map["Child" := child, "Parent" := parent], map[])
  }

  /** What registering inside `HybridRelation` reads: its tables, the
      fields of both classes once the hybrid property is added, and the
      class that property names. */
  lemma HybridRelationFacts()
    ensures var u := HybridRelation();
      && WellFormed(u)
      && Tables(u) == {"parent", "child"}
      && AllFields(u.classes["Parent"]) == [Field("kids", ClassRef("Child"), Some(true))]
      && AllFields(u.classes["Child"]) == []
      && UnusableHybrid(u.classes["Parent"].hybrids).None?
      && Resolve(u, ClassRef("Child")) == Success("Child")
  {
    var u := HybridRelation();
    assert Tables(u) == {"parent", "child"} by {
      assert u.classes["Child"].tableName == "child" && u.classes["Parent"].tableName == "parent";
    }
  }

  /** The namespace once `Child` is registered. */
  const ChildRegistered: Models := map["child" := Fields([]), "child-payload" := Fields([])]

  /** A field naming a model whose schemas are already in the namespace is
      nested by its relationship's `uselist` flag, wherever the field came
      from. */
  lemma NestedFieldStep(u: Universe, v: Variant, bound: set<string>, ns: Models, name: string, path: seq<string>,
                        f: Field, rest: seq<Field>, api: Schema, target: string)
    requires WellFormed(u) && Tables(u) <= bound && name in bound && name !in path
    requires Known(u, f.annotation) && forall g | g in rest :: Known(u, g.annotation)
    requires !f.annotation.Mapped? && Resolve(u, f.annotation) == Success(target)
    requires u.classes[target].inModelsModule && u.classes[target].isDbModel
    requires u.classes[target].tableName in ns && u.classes[target].tableName + "-payload" in ns && f.relation.Some?
    ensures var key := u.classes[target].tableName + "-payload";
      RegisterFields(u, v, bound, ns, name, path, [f] + rest, api)
        == RegisterFields(u, v, bound, ns, name, path, rest,
                          Put(api, f.name, if f.relation.value then NestedList(key) else Nested(key)))
  {
    assert ([f] + rest)[1..] == rest;
  }

  /** The field loop of `Parent` puts `kids` as a list of `child` payloads. */
  lemma HybridRelationFields()
    ensures RegisterFields(HybridRelation(), AsWritten, {"parent", "child"}, ChildRegistered, "parent", [],
                           [Field("kids", ClassRef("Child"), Some(true))], []).fields
         == Success(Put([], "kids", NestedList("child-payload")))
  {
    var u := HybridRelation();
    var f := Field("kids", ClassRef("Child"), Some(true));
    HybridRelationFacts();
    assert u.classes["Child"].tableName + "-payload" == "child-payload";
    NestedFieldStep(u, AsWritten, {"parent", "child"}, ChildRegistered, "parent", [], f, [], [], "Child");
    assert [f] + [] == [f];
  }

  /** With `Child` registered, the hybrid property of `Parent` is
      registered as a list of nested `child` payloads, exactly like a
      relationship field. */
  lemma HybridRelationNested()
    ensures var s := Register(HybridRelation(), AsWritten, {"parent", "child"}, ChildRegistered, "Parent", "parent", []);
      && s.outcome == Success(Registered)
      && s.ns["parent"] == Inherits("record-base", Put([], "kids", NestedList("child-payload")))
  {
    HybridRelationFacts();
    RegisterUnfolds(HybridRelation(), AsWritten, {"parent", "child"}, ChildRegistered, "Parent", "parent", []);
    HybridRelationFields();
  }

  // ---------------------------------------------------------------------
  // The namespace, registered into in place

  class Namespace {
    var models: Models

    /** A namespace holding the generic schemas every namespace starts with. */
    constructor(generic: Models)
      ensures models == generic
    {
      models := generic;
    }

    /** `_register_api_model(namespace, model, model_name, _recursed_models)`:
        the hybrid-property loop, then the field loop, each sub-model
        registered first, then the four schemas. */
    method RegisterApiModel(u: Universe, v: Variant, bound: set<string>, cls: string, name: string, path: seq<string>)
      returns (outcome: Result<Outcome, RegError>)
      requires WellFormed(u) && cls in u.classes && Tables(u) <= bound && name in bound
      modifies this
      ensures Step(models, outcome) == Register(u, v, bound, old(models), cls, name, path)
      decreases |bound - Elements(path)|, 2
    {
      var c := u.classes[cls];
      if !c.exposed {
        return Failure(NotExposed(c.qualName));
      }
      if name in path {
        return Success(Halted);
      }
      var collected := CollectFields(c);
      if collected.Failure? {
        return Failure(collected.error);
      }
      outcome := RegisterCollected(u, v, bound, cls, name, path, collected.value);
    }

    /** The field loop of a registration that passed its checks, then the
        four schemas. */
    method RegisterCollected(u: Universe, v: Variant, bound: set<string>, cls: string, name: string, path: seq<string>,
                             fields: seq<Field>) returns (outcome: Result<Outcome, RegError>)
      requires WellFormed(u) && cls in u.classes && Tables(u) <= bound && name in bound
      requires u.classes[cls].exposed && name !in path && UnusableHybrid(u.classes[cls].hybrids).None?
      requires fields == AllFields(u.classes[cls])
      modifies this
      ensures Step(models, outcome) == Register(u, v, bound, old(models), cls, name, path)
      decreases |bound - Elements(path)|, 1
    {
      var c := u.classes[cls];
      AllFieldsKnown(u, cls);
      ghost var ns0 := models;
      var api: Schema := [];
      var i := 0;
      while i < |fields|
        invariant 0 <= i <= |fields|
        invariant RegisterFields(u, v, bound, models, name, path, fields[i..], api)
               == RegisterFields(u, v, bound, ns0, name, path, fields, [])
      {
        assert fields[i..] == [fields[i]] + fields[i + 1..];
        assert fields[i] in fields;
        var next := RegisterField(u, v, bound, name, path, fields[i], fields[i + 1..], api);
        if next.Failure? {
          RegisterUnfolds(u, v, bound, ns0, cls, name, path);
          return Failure(next.error);
        }
        api := next.value;
        i := i + 1;
      }
      assert fields[i..] == [];
      var payload := PayloadFields(api, c.readOnly, NoSetter(c));
      RegisterUnfolds(u, v, bound, ns0, cls, name, path);
      models := Publish(models, name, api, payload);
      return Success(Registered);
    }

    /** One turn of the field loop: field `f`, with `rest` to follow and the
        schema `api` built so far. */
    method RegisterField(u: Universe, v: Variant, bound: set<string>, name: string, path: seq<string>,
                         f: Field, rest: seq<Field>, api: Schema) returns (next: Result<Schema, RegError>)
      requires WellFormed(u) && Tables(u) <= bound && name in bound && name !in path
      requires Known(u, f.annotation) && forall g | g in rest :: Known(u, g.annotation)
      modifies this
      ensures RegisterFields(u, v, bound, old(models), name, path, [f] + rest, api)
           == if next.Failure? then FieldsStep(models, Failure(next.error))
              else RegisterFields(u, v, bound, models, name, path, rest, next.value)
      decreases |bound - Elements(path)|, 0
    {
      assert ([f] + rest)[1..] == rest;
      if f.annotation.Mapped? {
        return Success(Put(api, f.name, Prim(f.annotation.kind)));
      }
      var target := Resolve(u, f.annotation);
      if target.Failure? {
        return Failure(target.error);
      }
      var sub := u.classes[target.value];
      if !sub.inModelsModule {
        return Failure(AssertionFailed(NotInModelsModule(sub.qualName)));
      }
      if !sub.isDbModel {
        return Failure(AssertionFailed(NotADbModel(sub.qualName)));
      }
      var t := sub.tableName;
      assert t in Tables(u);
      if t !in models {
        Shrinks(bound, path, name);
        var nested := RegisterApiModel(u, v, bound, target.value, t, path + [name]);
        if nested.Failure? {
          if nested.error.AssertionFailed? && path == [] {
            return Success(api);
          }
          return Failure(nested.error);
        }
      }
      var key := t + "-payload";
      if key !in models {
        if v == AsWritten {
          return Failure(MissingSubSchema(key));
        }
        return Success(api);
      }
      if f.relation.None? {
        return Failure(NotARelation(f.name));
      }
      return Success(Put(api, f.name, if f.relation.value then NestedList(key) else Nested(key)));
    }
  }

  /** One turn of the hybrid-property loop, on the specification side. */
  lemma HybridStep(fs: seq<Field>, hs: seq<Hybrid>)
    requires hs != []
    ensures var h := hs[0];
      && UnusableHybrid(hs) == (if h.annotation.Some? && !h.hasExpression && !h.getterWorksOnClass then Some(h) else UnusableHybrid(hs[1..]))
      && WithHybrids(fs, hs) == WithHybrids(if h.annotation.Some? then PutField(fs, Field(h.name, h.annotation.value, h.relation)) else fs, hs[1..])
  {
  }

  /** The hybrid-property loop: the first unusable annotated hybrid property
      fails the registration; the others are added to the fields. */
  method CollectFields(c: ClassDesc) returns (r: Result<seq<Field>, RegError>)
    ensures r.Failure? <==> UnusableHybrid(c.hybrids).Some?
    ensures r.Failure? ==> r.error == AssertionFailed(HybridNeedsExpression(c.qualName, UnusableHybrid(c.hybrids).value.name))
    ensures r.Success? ==> r.value == AllFields(c)
  {
    var fields := c.fields;
    var j := 0;
    while j < |c.hybrids|
      invariant 0 <= j <= |c.hybrids|
      invariant WithHybrids(fields, c.hybrids[j..]) == AllFields(c)
      invariant UnusableHybrid(c.hybrids[j..]) == UnusableHybrid(c.hybrids)
    {
      var h := c.hybrids[j];
      HybridStep(fields, c.hybrids[j..]);
      assert c.hybrids[j..][1..] == c.hybrids[j + 1..];
      if h.annotation.Some? {
        if !h.hasExpression && !h.getterWorksOnClass {
          return Failure(AssertionFailed(HybridNeedsExpression(c.qualName, h.name)));
        }
        fields := PutField(fields, Field(h.name, h.annotation.value, h.relation));
      }
      j := j + 1;
    }
    assert c.hybrids[j..] == [];
    return Success(fields);
  }
}
