/**
  Two view sets of the example application (examples/viewsets.py) through
  the whole pipeline: `UserViewSet`, whose five handlers are hand-written
  and which declares no configuration, and `CompanyViewSet`, which declares
  a configuration and gets its handlers generated, discovered and routed.
 */
module ExampleApp {
  import opened Basics
  import opened Lex
  import opened Prefix
  import opened Actions
  import opened Factory
  import opened Classes
  import opened Compiler
  import opened Discovery
  import opened Registration
  import opened Storage
  import Scenarios

  // ---------------------------------------------------------------------
  // UserViewSet: hand-written handlers, no configuration.

  function HandWrittenView(name: string, path: string, verb: HttpMethod): Attr
  {
    Func(Function(name, "", [SelfParam], Some(ActionMeta(path, verb, One("UserPydantic"), None, None, map[])), HandWritten(name)))
  }

  const UserBody: Namespace := map[
    "create" := HandWrittenView("create", "", POST),
    "all" := HandWrittenView("all", "/all", GET),
    "get" := HandWrittenView("get", "/{uid}", GET),
    "update" := HandWrittenView("update", "/{uid}", PATCH),
    "delete" := HandWrittenView("delete", "/{uid}", DELETE)]

  /** A view set that declares none of the configuration attributes is left
      as written, and no "lacks" warning is logged for it. */
  lemma UserViewSetIsLeftAsWritten()
    ensures IssubclassSafe(UserBody)
    ensures Check(UserBody) == Lacks(false)
    ensures Compile(ClassDef("UserViewSet", [BaseViewSet], UserBody)) == UserBody
  {
    assert "model" !in UserBody;
    assert Essentials * UserBody.Keys == {};
  }

  // ---------------------------------------------------------------------
  // CompanyViewSet: a configuration, and the five generated handlers.

  const Company: ClassRef := ClassRef("Company", OrmModel)
  const CompanyPydantic: ClassRef := ClassRef("CompanyPydantic", PydanticSchema)
  const CompanyCreatePydantic: ClassRef := ClassRef("CompanyCreatePydantic", PydanticSchema)
  const CompanyUpdatePydantic: ClassRef := ClassRef("CompanyUpdatePydantic", PydanticSchema)
  const IntType: ClassRef := ClassRef("int", PlainType)
  const StrType: ClassRef := ClassRef("str", PlainType)

  const CompanyViews: map<string, Value> := map[
    "all" := Constant(Null),
    "create" := ClassVal(CompanyCreatePydantic),
    "get" := Constant(Null),
    "update" := ClassVal(CompanyUpdatePydantic),
    "delete" := Constant(Null),
    "filter" := DictVal(map["acronym" := TupleVal([Constant(Null), ClassVal(StrType)])])]

  const CompanyBody: Namespace := map[
    "model" := Data(ClassVal(Company)),
    "schema" := Data(ClassVal(CompanyPydantic)),
    "pk_name" := Data(Constant(Str("id"))),
    "pk_type" := Data(ClassVal(IntType)),
    "page_size" := Data(Constant(Int(10))),
    "views" := Data(DictVal(CompanyViews))]

  const CompanyDef: ClassDef := ClassDef("CompanyViewSet", [BaseViewSet], CompanyBody)

  /** What `CompanyViewSet` inherits from `BaseViewSet`. */
  const BaseNamespace: Namespace := map["auto_view_path" := Data(Constant(Bool(true)))]

  lemma CompanyConfigIsValid()
    ensures IssubclassSafe(CompanyBody)
    ensures Check(CompanyBody) == Valid
  {
    assert !ViewsInvalid(CompanyBody["views"]);
  }

  // ---------------------------------------------------------------------
  // Any fully generated view set.

  /** A class statement whose standard handlers all come from the factory:
      the configuration is valid and lists every standard view, and the body
      defines no handler of its own. */
  predicate FullyGenerated(d: ClassDef)
  {
    && IssubclassSafe(d.body)
    && Generates(d)
    && StandardViews <= d.body["views"].v.entries.Keys
    && StandardViews !! d.body.Keys
    && (forall a :: a in d.body ==> !d.body[a].Func?)
  }

  /** Nothing inherited is a handler. */
  predicate InheritsNoHandler(c: ClassObj)
  {
    forall a :: a in c.inherited ==> !c.inherited[a].Func?
  }

  /** A standard name is filled in by the factory. */
  lemma GeneratedHandler(d: ClassDef, c: ClassObj, a: string)
    requires FullyGenerated(d) && c.own == Compile(d)
    requires a in StandardViews
    ensures a in Resolve(c) && Resolve(c)[a] == Func(Generator(a, d.body))
  {
    GapIsFilled(d, a);
  }

  /** Any other name is not a handler. */
  lemma NoOtherHandler(d: ClassDef, c: ClassObj, a: string)
    requires FullyGenerated(d) && c.own == Compile(d) && InheritsNoHandler(c)
    requires a !in StandardViews
    ensures !IsView(Resolve(c), a)
  {
    if a in c.own {
      assert a in d.body;
      assert c.own[a] == d.body[a];
    }
  }

  /** The handlers of a fully generated view set are exactly the five standard ones, as the factory makes them. */
  lemma FullyGeneratedHandlers(d: ClassDef, c: ClassObj)
    requires FullyGenerated(d) && c.own == Compile(d) && InheritsNoHandler(c)
    ensures forall a :: IsView(Resolve(c), a) <==> a in StandardViews
    ensures forall a :: a in StandardViews ==> Resolve(c)[a] == Func(Generator(a, d.body))
  {
    forall a | a in StandardViews
      ensures a in Resolve(c) && Resolve(c)[a] == Func(Generator(a, d.body)) && IsView(Resolve(c), a)
    {
      GeneratedHandler(d, c, a);
    }
    forall a | a !in StandardViews
      ensures !IsView(Resolve(c), a)
    {
      NoOtherHandler(d, c, a);
    }
  }

  /** Where each generated handler routes, relative to the prefix. */
  lemma GeneratedPaths(body: Namespace)
    requires IssubclassSafe(body) && Check(body) == Valid
    requires StandardViews <= body["views"].v.entries.Keys
    ensures Generator("create", body).action.value.path == ""
    ensures Generator("all", body).action.value.path == "/all"
    ensures Generator("delete", body).action.value.path == "/{pk}"
    ensures Generator("get", body).action.value.path == "/{pk}"
    ensures Generator("update", body).action.value.path == "/{pk}"
  {
  }

  lemma PathOrder()
    ensures LexLt("", "/all") && LexLt("", "/{pk}") && LexLt("/all", "/{pk}")
    ensures LexLt("delete", "get") && LexLt("delete", "update") && LexLt("get", "update")
  {
  }

  /** The five generated handlers in the order create, all, delete, get, update are ordered. */
  lemma FiveOrdered(es: seq<Entry>)
    requires |es| == 5
    requires es[0].meta.path == "" && es[1].meta.path == "/all"
    requires es[2].meta.path == "/{pk}" && es[3].meta.path == "/{pk}" && es[4].meta.path == "/{pk}"
    requires es[2].name == "delete" && es[3].name == "get" && es[4].name == "update"
    ensures Ordered(es)
  {
    PathOrder();
    forall i, j | 0 <= i < j < 5
      ensures Before(es[i], es[j])
    {
    }
  }

  /** The five entries discovery finds in a fully generated view set. */
  lemma GeneratedEntries(d: ClassDef, c: ClassObj)
    requires FullyGenerated(d) && c.own == Compile(d) && InheritsNoHandler(c)
    ensures forall a :: IsView(Resolve(c), a) <==> a in StandardViews
    ensures EntryOf(Resolve(c), "create").meta.path == ""
    ensures EntryOf(Resolve(c), "all").meta.path == "/all"
    ensures EntryOf(Resolve(c), "delete").meta.path == "/{pk}"
    ensures EntryOf(Resolve(c), "get").meta.path == "/{pk}"
    ensures EntryOf(Resolve(c), "update").meta.path == "/{pk}"
  {
    FullyGeneratedHandlers(d, c);
    GeneratedPaths(d.body);
  }

  /** The five standard entries of a namespace, in discovery order. */
  function FiveEntries(ns: Namespace): seq<Entry>
    requires forall a :: a in StandardViews ==> IsView(ns, a)
  {
    [EntryOf(ns, "create"), EntryOf(ns, "all"), EntryOf(ns, "delete"), EntryOf(ns, "get"), EntryOf(ns, "update")]
  }

  lemma FiveEntriesAreTheViews(ns: Namespace)
    requires forall a :: IsView(ns, a) <==> a in StandardViews
    ensures forall e :: e in FiveEntries(ns) ==> IsView(ns, e.name) && e == EntryOf(ns, e.name)
    ensures forall a :: IsView(ns, a) ==> EntryOf(ns, a) in FiveEntries(ns)
    ensures Names(FiveEntries(ns)) == ["create", "all", "delete", "get", "update"]
  {
    var es := FiveEntries(ns);
    forall a | IsView(ns, a)
      ensures EntryOf(ns, a) in es
    {
      assert a in StandardViews;
    }
  }

  /** Any class whose handlers are the five standard names at the factory's
      paths is discovered in the order create, all, delete, get, update: by
      path (`""`, `/all`, then `/{pk}` three times) and, for the equal paths,
      alphabetically. */
  lemma StandardHandlersOrder(c: ClassObj)
    requires forall a :: IsView(Resolve(c), a) <==> a in StandardViews
    requires EntryOf(Resolve(c), "create").meta.path == ""
    requires EntryOf(Resolve(c), "all").meta.path == "/all"
    requires EntryOf(Resolve(c), "delete").meta.path == "/{pk}"
    requires EntryOf(Resolve(c), "get").meta.path == "/{pk}"
    requires EntryOf(Resolve(c), "update").meta.path == "/{pk}"
    ensures Names(Discover(c)) == ["create", "all", "delete", "get", "update"]
  {
    var es := FiveEntries(Resolve(c));
    FiveOrdered(es);
    FiveEntriesAreTheViews(Resolve(c));
    DiscoverIsDeterminedByOrder(c, es);
  }

  /** So, in particular, is every fully generated view set. */
  lemma FullyGeneratedDiscoveryOrder(d: ClassDef, c: ClassObj)
    requires FullyGenerated(d) && c.own == Compile(d) && InheritsNoHandler(c)
    ensures Names(Discover(c)) == ["create", "all", "delete", "get", "update"]
  {
    GeneratedEntries(d, c);
    StandardHandlersOrder(c);
  }

  /** The route of the `i`-th discovered handler, under automatic paths. */
  lemma RouteOfDiscovered(c: ClassObj, i: nat, name: string, fragment: string)
    requires AutoViewPath(c)
    requires i < |Discover(c)| && Discover(c)[i].name == name
    requires IsView(Resolve(c), name) && EntryOf(Resolve(c), name).meta.path == fragment
    ensures i < |RoutesOf(c)| && RoutesOf(c)[i].path == "/" + DerivePrefix(c.name) + fragment
  {
    DiscoverListsExactlyTheViews(c);
    assert Discover(c)[i] in Discover(c);
  }

  lemma StandardNamesSpelled(es: seq<Entry>)
    requires Names(es) == ["create", "all", "delete", "get", "update"]
    ensures |es| == 5
    ensures es[0].name == "create" && es[1].name == "all" && es[2].name == "delete"
    ensures es[3].name == "get" && es[4].name == "update"
  {
    var names := Names(es);
    assert names[0] == "create" && names[1] == "all" && names[2] == "delete" && names[3] == "get" && names[4] == "update";
  }

  /** Routes of a class discovered as create, all, delete, get, update at the factory's paths. */
  lemma StandardRoutePaths(c: ClassObj)
    requires AutoViewPath(c)
    requires Names(Discover(c)) == ["create", "all", "delete", "get", "update"]
    requires forall a :: IsView(Resolve(c), a) <==> a in StandardViews
    requires EntryOf(Resolve(c), "create").meta.path == ""
    requires EntryOf(Resolve(c), "all").meta.path == "/all"
    requires EntryOf(Resolve(c), "delete").meta.path == "/{pk}"
    requires EntryOf(Resolve(c), "get").meta.path == "/{pk}"
    requires EntryOf(Resolve(c), "update").meta.path == "/{pk}"
    ensures var rs := RoutesOf(c); var p := "/" + DerivePrefix(c.name);
      |rs| == 5 && rs[0].path == p + "" && rs[1].path == p + "/all"
      && rs[2].path == p + "/{pk}" && rs[3].path == p + "/{pk}" && rs[4].path == p + "/{pk}"
  {
    StandardNamesSpelled(Discover(c));
    RouteOfDiscovered(c, 0, "create", "");
    RouteOfDiscovered(c, 1, "all", "/all");
    RouteOfDiscovered(c, 2, "delete", "/{pk}");
    RouteOfDiscovered(c, 3, "get", "/{pk}");
    RouteOfDiscovered(c, 4, "update", "/{pk}");
  }

  /** A fully generated view set's routes, under automatic paths, are the
      prefix route, `/all` below it, and three times `/{pk}` below it, in
      that order. */
  lemma FullyGeneratedRoutePaths(d: ClassDef, c: ClassObj)
    requires FullyGenerated(d) && c.own == Compile(d) && InheritsNoHandler(c)
    requires AutoViewPath(c)
    ensures var rs := RoutesOf(c); var p := "/" + DerivePrefix(c.name);
      |rs| == 5 && rs[0].path == p + "" && rs[1].path == p + "/all"
      && rs[2].path == p + "/{pk}" && rs[3].path == p + "/{pk}" && rs[4].path == p + "/{pk}"
  {
    FullyGeneratedDiscoveryOrder(d, c);
    GeneratedEntries(d, c);
    StandardRoutePaths(c);
  }

  /** Registering a fully generated view set routes its fourth handler,
      `get`, and a call on that route answers exactly what the store's `get`
      answers: the row stored under `pk`, or not-found, with the table
      unchanged. */
  lemma FullyGeneratedGetRoute(reg: Registry, d: ClassDef, c: ClassObj, t: Table, call: Call)
    requires FullyGenerated(d) && c.own == Compile(d) && InheritsNoHandler(c)
    requires !HasTransponder(reg, c) && !c.transponder
    ensures var r := Register(reg, c).router;
      && |reg.router| + 3 < |r| && r[|reg.router| + 3].endpoint.name == "get"
      && Dispatch(r[|reg.router| + 3], t, call) == Some(GetRow(t, call.pk))
  {
    FullyGeneratedDiscoveryOrder(d, c);
    StandardNamesSpelled(Discover(c));
    DispatchRunsTheDiscoveredHandler(reg, c, 3, t, call);
    DiscoverListsExactlyTheViews(c);
    var e := Discover(c)[3];
    assert e in Discover(c);
    GeneratedHandler(d, c, "get");
    assert e.fn == Generator("get", d.body);
  }

  // ---------------------------------------------------------------------
  // CompanyViewSet itself.

  lemma CompanyBodyHasNoHandler()
    ensures StandardViews !! CompanyBody.Keys
    ensures forall a :: a in CompanyBody ==> !CompanyBody[a].Func?
    ensures "auto_view_path" !in CompanyBody && "filter" !in CompanyBody
  {
  }

  lemma CompanyViewsListEveryStandardView()
    ensures StandardViews <= CompanyBody["views"].v.entries.Keys
  {
    assert CompanyBody["views"].v.entries == CompanyViews;
  }

  lemma CompanyIsFullyGenerated()
    ensures FullyGenerated(CompanyDef)
  {
    CompanyConfigIsValid();
    CompanyBodyHasNoHandler();
    CompanyViewsListEveryStandardView();
  }

  /** A view set that only inherits from `BaseViewSet`, and whose namespace
      does not set `auto_view_path`, inherits no handler and routes under
      its derived prefix. */
  lemma BaseInheritanceKeepsAutoViewPath(c: ClassObj)
    requires c.inherited == BaseNamespace && "auto_view_path" !in c.own
    ensures InheritsNoHandler(c) && AutoViewPath(c)
  {
    var v := Resolve(c)["auto_view_path"];
    assert v == Data(Constant(Bool(true)));
    assert Truthy(v.v);
  }

  /** Compiling adds no name outside the standard views. */
  lemma CompileAddsOnlyStandardNames(d: ClassDef, a: string)
    requires IssubclassSafe(d.body)
    requires a !in d.body && a !in StandardViews
    ensures a !in Compile(d)
  {
  }

  lemma CompanySpelling()
    ensures "/" + "company" + "" == "/company"
    ensures "/" + "company" + "/all" == "/company/all"
    ensures "/" + "company" + "/{pk}" == "/company/{pk}"
  {
  }

  /** What a class object compiled from `CompanyViewSet`'s class statement under `BaseViewSet` looks like. */
  lemma CompanyClassShape(c: ClassObj)
    requires IssubclassSafe(CompanyBody)
    requires c.own == Compile(CompanyDef) && c.inherited == BaseNamespace
    ensures FullyGenerated(CompanyDef) && InheritsNoHandler(c) && AutoViewPath(c)
    ensures "filter" !in c.own
  {
    CompanyIsFullyGenerated();
    CompanyBodyHasNoHandler();
    CompiledOverBaseShape(CompanyDef, c);
  }

  /** A compiled body that defines neither `auto_view_path` nor `filter`, over
      `BaseViewSet` alone, keeps the base's flag and gains no `filter`. */
  lemma CompiledOverBaseShape(d: ClassDef, c: ClassObj)
    requires IssubclassSafe(d.body) && c.own == Compile(d) && c.inherited == BaseNamespace
    requires "auto_view_path" !in d.body && "filter" !in d.body
    ensures InheritsNoHandler(c) && AutoViewPath(c) && "filter" !in c.own
  {
    CompileAddsNeither(d, c.own, "auto_view_path", "filter");
    BaseInheritanceKeepsAutoViewPath(c);
  }

  /** Two names outside the standard views that the body leaves undefined stay undefined. */
  lemma CompileAddsNeither(d: ClassDef, own: Namespace, a: string, b: string)
    requires IssubclassSafe(d.body) && own == Compile(d)
    requires a !in d.body && a !in StandardViews && b !in d.body && b !in StandardViews
    ensures a !in own && b !in own
  {
    CompileAddsOnlyStandardNames(d, a);
    CompileAddsOnlyStandardNames(d, b);
  }

  lemma CompanyDiscoveryOrder(c: ClassObj)
    requires IssubclassSafe(CompanyBody)
    requires c.own == Compile(CompanyDef) && c.inherited == BaseNamespace
    ensures Names(Discover(c)) == ["create", "all", "delete", "get", "update"]
  {
    CompanyClassShape(c);
    FullyGeneratedDiscoveryOrder(CompanyDef, c);
  }

  lemma CompanyRoutePaths(c: ClassObj)
    requires IssubclassSafe(CompanyBody)
    requires c.name == "CompanyViewSet" && c.own == Compile(CompanyDef) && c.inherited == BaseNamespace
    ensures var rs := RoutesOf(c);
      |rs| == 5 && rs[0].path == "/company" && rs[1].path == "/company/all"
      && rs[2].path == "/company/{pk}" && rs[3].path == "/company/{pk}" && rs[4].path == "/company/{pk}"
  {
    CompanyClassShape(c);
    FullyGeneratedRoutePaths(CompanyDef, c);
    Scenarios.CompanyViewSetPrefix();
    CompanySpelling();
  }

  /** The class object `CompanyViewSet` is created as (any class object
      compiled from its class statement under `BaseViewSet`) discovers its
      handlers as create, all, delete, get, update, and routes them at
      `/company`, `/company/all` and three times `/company/{pk}`; the
      `filter` entry of its `views` adds nothing. */
  lemma CompanyRoutes(c: ClassObj)
    requires IssubclassSafe(CompanyBody)
    requires c.name == "CompanyViewSet" && c.own == Compile(CompanyDef) && c.inherited == BaseNamespace
    ensures Names(Discover(c)) == ["create", "all", "delete", "get", "update"]
    ensures var rs := RoutesOf(c);
      |rs| == 5 && rs[0].path == "/company" && rs[1].path == "/company/all"
      && rs[2].path == "/company/{pk}" && rs[3].path == "/company/{pk}" && rs[4].path == "/company/{pk}"
    ensures "filter" !in c.own
  {
    CompanyClassShape(c);
    CompanyDiscoveryOrder(c);
    CompanyRoutePaths(c);
  }
}
