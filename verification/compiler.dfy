/**
  `ViewSetMetaClass.__new__` (fast_cbv/viewsets.py): validate the
  configuration a class body declares and, when it is valid, fill in the
  standard handlers the body does not define itself.
 */
module Compiler {
  import opened Basics
  import opened Actions
  import opened Classes
  import opened Factory

  /** The attributes a body must define for handlers to be generated. */
  const Essentials: set<string> := {"model", "schema", "pk_type", "views"}

  /** The handlers the metaclass can generate; `filter` is not among them. */
  const StandardViews: set<string> := {"all", "get", "create", "update", "delete"}

  /** The `views` entries whose value is the input schema of a request body. */
  const InputViews: set<string> := {"create", "update"}

  predicate IsClass(a: Attr)
  {
    a.Data? && a.v.ClassVal?
  }

  predicate IsKind(a: Attr, k: ClassKind)
  {
    IsClass(a) && a.v.cls.kind == k
  }

  predicate IsDict(a: Attr)
  {
    a.Data? && a.v.DictVal?
  }

  /** The checks only ever call `issubclass` on class objects. In the source
      any other value reaching an `issubclass` raises `TypeError` while the
      class is being created; this model rules those bodies out instead. */
  predicate IssubclassSafe(body: Namespace)
  {
    Essentials <= body.Keys ==>
      && IsClass(body["model"])
      && (IsKind(body["model"], OrmModel) ==> IsClass(body["schema"]))
      && (IsKind(body["model"], OrmModel) && IsKind(body["schema"], PydanticSchema) && IsClass(body["pk_type"]) && IsDict(body["views"]) ==>
            forall k :: k in InputViews && k in body["views"].v.entries ==> body["views"].v.entries[k].ClassVal?)
  }

  /** The verdict of `_check_attrs`. `Lacks(warned)` records whether the
      "lacks" warning is logged; every other failure logs its warning. */
  datatype Verdict = Valid | Lacks(warned: bool) | BadModel | BadSchema | BadPkType | BadViews

  /** The position of each check in the order the source runs them. */
  function Rank(v: Verdict): nat
  {
    match v
    case Lacks(_) => 0
    case BadModel => 1
    case BadSchema => 2
    case BadPkType => 3
    case BadViews => 4
    case Valid => 5
  }

  /** Whether check number `j` fails, judged on its own. */
  predicate Fails(body: Namespace, j: nat)
  {
    match j
    case 0 => !(Essentials <= body.Keys)
    case 1 => "model" in body && !IsKind(body["model"], OrmModel)
    case 2 => "schema" in body && !IsKind(body["schema"], PydanticSchema)
    case 3 => "pk_type" in body && !IsClass(body["pk_type"])
    case 4 => "views" in body && ViewsInvalid(body["views"])
    case _ => false
  }

  /** `_check_views` fails: not a dict, or a `create`/`update` entry that is not a subclass of tortoise's `PydanticModel`. */
  predicate ViewsInvalid(views: Attr)
  {
    !IsDict(views) ||
    exists k :: k in InputViews && k in views.v.entries && !(views.v.entries[k].ClassVal? && views.v.entries[k].cls.kind == PydanticSchema)
  }

  /** `_check_attrs`: the checks in order, the first failure wins. The
      "lacks" warning is logged exactly when some, but not all, of the
      essential attributes are defined. */
  function Check(body: Namespace): (v: Verdict)
    requires IssubclassSafe(body)
    ensures v.Lacks? ==> (v.warned <==> Essentials * body.Keys != {})
  {
    if !(Essentials <= body.Keys) then Lacks(Essentials * body.Keys != {})
    else if !IsKind(body["model"], OrmModel) then BadModel
    else if !IsKind(body["schema"], PydanticSchema) then BadSchema
    else if !IsClass(body["pk_type"]) then BadPkType
    else if ViewsInvalid(body["views"]) then BadViews
    else Valid
  }

  /** First failure wins: the verdict names a check that fails and every
      earlier check passes; `Valid` means no check fails. */
  lemma CheckReportsFirstFailure(body: Namespace)
    requires IssubclassSafe(body)
    ensures Check(body) != Valid ==> Fails(body, Rank(Check(body)))
    ensures forall j :: 0 <= j < Rank(Check(body)) ==> !Fails(body, j)
    ensures Check(body) == Valid <==> forall j :: 0 <= j < 5 ==> !Fails(body, j)
  {
    if forall j :: 0 <= j < 5 ==> !Fails(body, j) {
      assert !Fails(body, 0) && !Fails(body, 1) && !Fails(body, 2) && !Fails(body, 3) && !Fails(body, 4);
    }
  }

  /** Whether `__new__` generates handlers for this class statement: not for
      `BaseViewSet`, not for a class with `CBVTransponder` among its direct
      bases, and not when the configuration is invalid. */
  predicate Generates(d: ClassDef)
    requires IssubclassSafe(d.body)
  {
    d.name != BaseViewSet && CBVTransponder !in d.bases && Check(d.body) == Valid
  }

  /** The handler the factory makes for a standard view name from a valid
      configuration: the generator of that name, given the configured model
      and schema, the `views` entry as input type for `create` and `update`,
      and `pk_type` as key type for `get`, `update` and `delete`. */
  function Generator(name: string, body: Namespace): (f: Function)
    requires IssubclassSafe(body) && Check(body) == Valid
    requires name in StandardViews && name in body["views"].v.entries
    ensures f.name == name && f.action.Some? && f.impl.Generated?
    ensures f.impl.model == body["model"].v.cls && f.impl.schema == body["schema"].v.cls
    ensures f.doc == Doc(f.impl.op, body["model"].v.cls.name)
    ensures (f.impl.op == All <==> name == "all") && (f.impl.op == Create <==> name == "create")
    ensures (f.impl.op == Get <==> name == "get") && (f.impl.op == Update <==> name == "update")
    ensures (f.impl.op == Delete <==> name == "delete") && f.impl.op != Filter && f.impl.query == []
    ensures f.impl.input == (if name in InputViews then Some(body["views"].v.entries[name].cls) else None)
    ensures f.impl.pkType == (if name in {"get", "update", "delete"} then Some(body["pk_type"].v.cls) else None)
    ensures name == "all" ==> (f.params == [SelfParam]
      && f.action == Some(ActionMeta("/all", GET, ListOf(body["schema"].v.cls.name), None, None, map[])))
    ensures name == "create" ==> (f.params == [SelfParam, Required("body", body["views"].v.entries["create"].cls)]
      && f.action == Some(ActionMeta("", POST, One(body["schema"].v.cls.name), None, None, map[])))
    ensures name == "get" ==> (f.params == [SelfParam, Required("pk", body["pk_type"].v.cls)]
      && f.action == Some(ActionMeta("/{pk}", GET, One(body["schema"].v.cls.name), None, None, NotFoundDoc)))
    ensures name == "update" ==> (
      f.params == [SelfParam, Required("pk", body["pk_type"].v.cls), Required("body", body["views"].v.entries["update"].cls)]
      && f.action == Some(ActionMeta("/{pk}", PATCH, One(body["schema"].v.cls.name), None, None, NotFoundDoc)))
    ensures name == "delete" ==> (f.params == [SelfParam, Required("pk", body["pk_type"].v.cls)]
      && f.action == Some(ActionMeta("/{pk}", DELETE, One(body["schema"].v.cls.name), None, None, NotFoundDoc)))
  {
    var model := body["model"].v.cls;
    var schema := body["schema"].v.cls;
    var pkType := body["pk_type"].v.cls;
    var views := body["views"].v.entries;
    if name == "all" then GenerateAll(model, schema)
    else if name == "create" then GenerateCreate(model, schema, views["create"].cls)
    else if name == "get" then GenerateGet(model, schema, pkType)
    else if name == "update" then GenerateUpdate(model, schema, pkType, views["update"].cls)
    else GenerateDelete(model, schema, pkType)
  }

  /** Every handler the metaclass generates reads exactly what its route
      provides: the `create` and `update` input is a pydantic schema, so it
      is read from the request body, and `pk` is read from the path. */
  lemma GeneratedHandlersAreBound(name: string, body: Namespace)
    requires IssubclassSafe(body) && Check(body) == Valid
    requires name in StandardViews && name in body["views"].v.entries
    ensures WellBound(Generator(name, body))
  {
    var model := body["model"].v.cls;
    var schema := body["schema"].v.cls;
    var pkType := body["pk_type"].v.cls;
    var views := body["views"].v.entries;
    if name == "all" {
      AllIsBound(model, schema);
    } else if name == "create" {
      assert !ViewsInvalid(body["views"]);
      CreateIsBound(model, schema, views["create"].cls);
    } else if name == "get" {
      GetIsBound(model, schema, pkType);
    } else if name == "update" {
      assert !ViewsInvalid(body["views"]);
      UpdateIsBound(model, schema, pkType, views["update"].cls);
    } else {
      DeleteIsBound(model, schema, pkType);
    }
  }

  /** One `if name in attrs["views"] and name not in attrs` step. */
  function FillOne(ns: Namespace, body: Namespace, name: string): (r: Namespace)
    requires IssubclassSafe(body) && Check(body) == Valid
    requires name in StandardViews
    ensures r.Keys == ns.Keys + (if name in body["views"].v.entries then {name} else {})
    ensures forall a :: a in ns ==> r[a] == ns[a]
    ensures forall a :: a in r && a !in ns ==> a == name && r[a] == Func(Generator(a, body))
  {
    if name in body["views"].v.entries && name !in ns then ns[name := Func(Generator(name, body))] else ns
  }

  /** The names of `names` that `views` lists. */
  lemma ListedSplit(names: seq<string>, views: set<string>)
    requires |names| > 0
    ensures (set x | x in names && x in views)
      == (if names[0] in views then {names[0]} else {}) + (set x | x in names[1..] && x in views)
  {
    assert forall x :: x in names <==> x == names[0] || x in names[1..] by {
      assert names == [names[0]] + names[1..];
    }
  }

  /** The steps for the given names, in order. */
  function FillGaps(ns: Namespace, body: Namespace, names: seq<string>): (r: Namespace)
    requires IssubclassSafe(body) && Check(body) == Valid
    requires forall i :: 0 <= i < |names| ==> names[i] in StandardViews
    ensures r.Keys == ns.Keys + (set x | x in names && x in body["views"].v.entries)
    ensures forall a :: a in ns ==> r[a] == ns[a]
    ensures forall a :: a in r && a !in ns ==> a in StandardViews && a in body["views"].v.entries && r[a] == Func(Generator(a, body))
    decreases |names|
  {
    if |names| == 0 then ns
    else
      ListedSplit(names, body["views"].v.entries.Keys);
      var next := FillOne(ns, body, names[0]);
      var r := FillGaps(next, body, names[1..]);
      r
  }

  /** The order `__new__` visits the standard names in. */
  const FillOrder: seq<string> := ["all", "create", "get", "update", "delete"]

  lemma FillOrderCoversStandardViews(views: set<string>)
    ensures (forall i :: 0 <= i < |FillOrder| ==> FillOrder[i] in StandardViews)
    ensures (set x | x in FillOrder && x in views) == StandardViews * views
  {
    assert forall x :: x in FillOrder <==> x in StandardViews;
  }

  /** `ViewSetMetaClass.__new__`: the namespace the class is created with. */
  function Compile(d: ClassDef): (ns: Namespace)
    requires IssubclassSafe(d.body)
    ensures !Generates(d) ==> ns == d.body
    ensures Generates(d) ==> ns.Keys == d.body.Keys + (StandardViews * d.body["views"].v.entries.Keys)
    ensures forall a :: a in d.body ==> ns[a] == d.body[a]
    ensures forall a :: a in ns && a !in d.body ==>
      Generates(d) && a in StandardViews && a in d.body["views"].v.entries && ns[a] == Func(Generator(a, d.body))
  {
    if !Generates(d) then d.body
    else
      FillOrderCoversStandardViews(d.body["views"].v.entries.Keys);
      FillGaps(d.body, d.body, FillOrder)
  }

  /** A standard name that `views` lists and the body leaves undefined is filled in by the factory. */
  lemma GapIsFilled(d: ClassDef, name: string)
    requires IssubclassSafe(d.body) && Generates(d)
    requires name in StandardViews && name in d.body["views"].v.entries && name !in d.body
    ensures name in Compile(d) && Compile(d)[name] == Func(Generator(name, d.body))
  {
  }

  /** `filter` is never generated, whatever `views` says about it. */
  lemma CompileNeverAddsFilter(d: ClassDef)
    requires IssubclassSafe(d.body)
    ensures "filter" in Compile(d) <==> "filter" in d.body
  {
    assert "filter" !in StandardViews;
  }

  /** A handler the body defines itself is never replaced, even when `views` names it. */
  lemma HandWrittenTakesPrecedence(d: ClassDef, name: string)
    requires IssubclassSafe(d.body)
    requires name in d.body
    ensures Compile(d)[name] == d.body[name]
  {
  }

  /** Compiling never touches the configuration attributes. */
  lemma CompileKeepsConfiguration(d: ClassDef)
    requires IssubclassSafe(d.body)
    ensures Essentials * Compile(d).Keys == Essentials * d.body.Keys
    ensures forall k :: k in Essentials && k in d.body ==> Compile(d)[k] == d.body[k]
  {
    var ns := Compile(d);
    assert d.body.Keys <= ns.Keys;
    assert ns.Keys <= d.body.Keys + StandardViews;
    OnlyStandardViewsAdded(d.body.Keys, ns.Keys);
  }

  /** Adding standard view names adds no essential attribute. */
  lemma OnlyStandardViewsAdded(before: set<string>, after: set<string>)
    requires before <= after <= before + StandardViews
    ensures Essentials * after == Essentials * before
  {
    assert Essentials * StandardViews == {};
  }

  /** So the compiled namespace passes the same checks. */
  lemma CompiledConfigurationChecksAlike(d: ClassDef)
    requires IssubclassSafe(d.body)
    ensures IssubclassSafe(Compile(d))
    ensures Check(Compile(d)) == Check(d.body)
  {
    var ns := Compile(d);
    CompileKeepsConfiguration(d);
    assert Essentials <= ns.Keys <==> Essentials <= d.body.Keys;
    if Essentials <= d.body.Keys {
      assert ns["model"] == d.body["model"] && ns["schema"] == d.body["schema"];
      assert ns["pk_type"] == d.body["pk_type"] && ns["views"] == d.body["views"];
    }
  }

  /** A body that already defines every name its `views` asks for is left as it is. */
  lemma CompileWithoutGapsIsIdentity(d: ClassDef)
    requires IssubclassSafe(d.body)
    requires Generates(d) ==> StandardViews * d.body["views"].v.entries.Keys <= d.body.Keys
    ensures Compile(d) == d.body
  {
    if Generates(d) {
      var ns := Compile(d);
      assert ns.Keys == d.body.Keys;
      assert forall a :: a in ns ==> ns[a] == d.body[a];
    }
  }

  /** Compiling the compiled namespace again changes nothing: every gap is already filled. */
  lemma CompileIsIdempotent(d: ClassDef)
    requires IssubclassSafe(d.body)
    ensures IssubclassSafe(Compile(d))
    ensures Compile(ClassDef(d.name, d.bases, Compile(d))) == Compile(d)
  {
    var ns := Compile(d);
    CompiledConfigurationChecksAlike(d);
    var d' := ClassDef(d.name, d.bases, ns);
    assert Generates(d') == Generates(d);
    if Generates(d) {
      CompileKeepsConfiguration(d);
      assert ns["views"] == d.body["views"];
    }
    CompileWithoutGapsIsIdentity(d');
  }
}
