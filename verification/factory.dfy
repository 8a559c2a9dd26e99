/**
  The handler factory of fast_cbv/factory.py: six generators, each giving a
  handler with fixed route metadata, a docstring naming the model, a call
  signature and a body. Bodies run against the in-memory store of `Storage`.
 */
module Factory {
  import opened Basics
  import opened Actions
  import opened Storage

  /** `Param(name, POSITIONAL_OR_KEYWORD, annotation=t)` with no default. */
  function Required(name: string, t: ClassRef): Param
  {
    Param(name, PositionalOrKeyword, None, Some(t))
  }

  /** `generate_all`: `GET /all`, answering a list of the schema. */
  function GenerateAll(model: ClassRef, schema: ClassRef): (f: Function)
    ensures f.name == "all" && f.params == [SelfParam]
    ensures f.action == Some(ActionMeta("/all", GET, ListOf(schema.name), None, None, map[]))
    ensures f.impl.Generated? && f.impl.op == All && f.impl.model == model && f.impl.schema == schema
    ensures f.doc == Doc(All, model.name)
  {
    Function("all", "Query all " + model.name, [SelfParam],
      Some(ActionMeta("/all", GET, ListOf(schema.name), None, None, map[])),
      Generated(All, model, schema, None, None, []))
  }

  /** `generate_create`: `POST ""` with a body of the input schema. */
  function GenerateCreate(model: ClassRef, schema: ClassRef, input: ClassRef): (f: Function)
    ensures f.name == "create" && f.params == [SelfParam, Required("body", input)]
    ensures f.action == Some(ActionMeta("", POST, One(schema.name), None, None, map[]))
    ensures f.impl.Generated? && f.impl.op == Create && f.impl.input == Some(input)
    ensures f.doc == Doc(Create, model.name)
  {
    Function("create", "Create " + model.name, [SelfParam, Required("body", input)],
      Some(ActionMeta("", POST, One(schema.name), None, None, map[])),
      Generated(Create, model, schema, None, Some(input), []))
  }

  /** `generate_get`: `GET /{pk}`, documenting a 404. */
  function GenerateGet(model: ClassRef, schema: ClassRef, pkType: ClassRef): (f: Function)
    ensures f.name == "get" && f.params == [SelfParam, Required("pk", pkType)]
    ensures f.action == Some(ActionMeta("/{pk}", GET, One(schema.name), None, None, NotFoundDoc))
    ensures f.impl.Generated? && f.impl.op == Get && f.impl.pkType == Some(pkType)
    ensures f.doc == Doc(Get, model.name)
  {
    Function("get", "Get " + model.name + " by primary key", [SelfParam, Required("pk", pkType)],
      Some(ActionMeta("/{pk}", GET, One(schema.name), None, None, NotFoundDoc)),
      Generated(Get, model, schema, Some(pkType), None, []))
  }

  /** `generate_update`: `PATCH /{pk}` with a body, documenting a 404. */
  function GenerateUpdate(model: ClassRef, schema: ClassRef, pkType: ClassRef, input: ClassRef): (f: Function)
    ensures f.name == "update" && f.params == [SelfParam, Required("pk", pkType), Required("body", input)]
    ensures f.action == Some(ActionMeta("/{pk}", PATCH, One(schema.name), None, None, NotFoundDoc))
    ensures f.impl.Generated? && f.impl.op == Update && f.impl.pkType == Some(pkType) && f.impl.input == Some(input)
    ensures f.doc == Doc(Update, model.name)
  {
    Function("update", "Update " + model.name + " by primary key",
      [SelfParam, Required("pk", pkType), Required("body", input)],
      Some(ActionMeta("/{pk}", PATCH, One(schema.name), None, None, NotFoundDoc)),
      Generated(Update, model, schema, Some(pkType), Some(input), []))
  }

  /** `generate_delete`: `DELETE /{pk}`, documenting a 404. */
  function GenerateDelete(model: ClassRef, schema: ClassRef, pkType: ClassRef): (f: Function)
    ensures f.name == "delete" && f.params == [SelfParam, Required("pk", pkType)]
    ensures f.action == Some(ActionMeta("/{pk}", DELETE, One(schema.name), None, None, NotFoundDoc))
    ensures f.impl.Generated? && f.impl.op == Delete && f.impl.pkType == Some(pkType)
    ensures f.doc == Doc(Delete, model.name)
  {
    Function("delete", "Delete " + model.name + " by primary key", [SelfParam, Required("pk", pkType)],
      Some(ActionMeta("/{pk}", DELETE, One(schema.name), None, None, NotFoundDoc)),
      Generated(Delete, model, schema, Some(pkType), None, []))
  }

  /** The signature `generate_filter` installs: `self`, then one keyword-only
      parameter per query parameter, in mapping order, defaulted and annotated
      from its `(default_value, default_type)` pair. */
  function FilterSignature(query: seq<QueryParam>): (ps: seq<Param>)
    ensures |ps| == |query| + 1 && ps[0] == SelfParam
    ensures forall i :: 0 <= i < |query| ==>
      ps[i + 1] == Param(query[i].name, KeywordOnly, Some(query[i].default), Some(query[i].valueType))
  {
    [SelfParam] + seq(|query|, i requires 0 <= i < |query| =>
      Param(query[i].name, KeywordOnly, Some(query[i].default), Some(query[i].valueType)))
  }

  /** `generate_filter`: `GET /filter`, answering a list of the schema. */
  function GenerateFilter(model: ClassRef, schema: ClassRef, query: seq<QueryParam>): (f: Function)
    ensures f.name == "filter" && f.params == FilterSignature(query)
    ensures f.action == Some(ActionMeta("/filter", GET, ListOf(schema.name), None, None, map[]))
    ensures f.impl.Generated? && f.impl.op == Filter && f.impl.query == query
    ensures f.doc == Doc(Filter, model.name)
  {
    Function("filter", "Filter " + model.name + " that match the query", FilterSignature(query),
      Some(ActionMeta("/filter", GET, ListOf(schema.name), None, None, map[])),
      Generated(Filter, model, schema, None, None, query))
  }

  // ---------------------------------------------------------------------
  // The signature read back.

  /** Reads a filter signature back into its query parameters; None when the
      parameter list is not of the shape `generate_filter` builds. */
  function ReadFilterSignature(ps: seq<Param>): (r: Option<seq<QueryParam>>)
    ensures r.Some? ==> |r.value| + 1 == |ps|
  {
    if |ps| == 0 || ps[0] != SelfParam then None
    else if exists i :: 1 <= i < |ps| && (ps[i].kind != KeywordOnly || ps[i].default.None? || ps[i].annotation.None?) then None
    else Some(seq(|ps| - 1, i requires 0 <= i < |ps| - 1 =>
      QueryParam(ps[i + 1].name, ps[i + 1].default.value, ps[i + 1].annotation.value)))
  }

  /** Reading a generated filter signature gives back the query parameters. */
  lemma FilterSignatureRoundTrip(query: seq<QueryParam>)
    ensures ReadFilterSignature(FilterSignature(query)) == Some(query)
  {
    var ps := FilterSignature(query);
    assert !exists i :: 1 <= i < |ps| && (ps[i].kind != KeywordOnly || ps[i].default.None? || ps[i].annotation.None?) by {
      forall i | 1 <= i < |ps|
        ensures ps[i].kind == KeywordOnly && ps[i].default.Some? && ps[i].annotation.Some?
      {
        assert ps[i] == Param(query[i - 1].name, KeywordOnly, Some(query[i - 1].default), Some(query[i - 1].valueType));
      }
    }
    var r := ReadFilterSignature(ps).value;
    assert |r| == |query|;
    forall i | 0 <= i < |query|
      ensures r[i] == query[i]
    {
      assert ps[i + 1] == Param(query[i].name, KeywordOnly, Some(query[i].default), Some(query[i].valueType));
    }
    assert r == query;
  }

  /** Every parameter list of the filter shape is the signature of the query parameters it reads back as. */
  lemma ReadFilterSignatureIsExact(ps: seq<Param>)
    requires ReadFilterSignature(ps).Some?
    ensures FilterSignature(ReadFilterSignature(ps).value) == ps
  {
    var q := ReadFilterSignature(ps).value;
    var qs := FilterSignature(q);
    forall i | 1 <= i < |ps|
      ensures qs[i] == ps[i]
    {
      assert q[i - 1] == QueryParam(ps[i].name, ps[i].default.value, ps[i].annotation.value);
    }
  }

  // ---------------------------------------------------------------------
  // The docstrings read back.

  /** The docstring each generator sets, for an operation and a model name. */
  function Doc(op: Op, model: string): (d: string)
    ensures |model| < |d|
  {
    match op
    case All => "Query all " + model
    case Create => "Create " + model
    case Get => "Get " + model + " by primary key"
    case Update => "Update " + model + " by primary key"
    case Delete => "Delete " + model + " by primary key"
    case Filter => "Filter " + model + " that match the query"
  }

  /** The text between `head` and `tail`, when `d` has that shape. */
  function Between(d: string, head: string, tail: string): (r: Option<string>)
    ensures r.Some? ==> d == head + r.value + tail
  {
    if |head| + |tail| <= |d| && d[..|head|] == head && d[|d| - |tail|..] == tail then
      assert d == d[..|head|] + d[|head|..|d| - |tail|] + d[|d| - |tail|..];
      Some(d[|head|..|d| - |tail|])
    else None
  }

  lemma BetweenOf(head: string, m: string, tail: string)
    ensures Between(head + m + tail, head, tail) == Some(m)
  {
    var d := head + m + tail;
    assert d[..|head|] == head;
    assert d[|d| - |tail|..] == tail;
    assert d[|head|..|d| - |tail|] == m;
  }

  /** Which generator wrote a docstring, and for which model. Each
      operation's docstring starts with its own verb phrase. */
  function ReadDoc(d: string): (r: Option<(Op, string)>)
    ensures r.Some? ==> d == Doc(r.value.0, r.value.1)
  {
    if Between(d, "Query all ", "").Some? then
      assert d == "Query all " + Between(d, "Query all ", "").value;
      Some((All, Between(d, "Query all ", "").value))
    else if Between(d, "Create ", "").Some? then
      assert d == "Create " + Between(d, "Create ", "").value;
      Some((Create, Between(d, "Create ", "").value))
    else if Between(d, "Get ", " by primary key").Some? then Some((Get, Between(d, "Get ", " by primary key").value))
    else if Between(d, "Update ", " by primary key").Some? then Some((Update, Between(d, "Update ", " by primary key").value))
    else if Between(d, "Delete ", " by primary key").Some? then Some((Delete, Between(d, "Delete ", " by primary key").value))
    else if Between(d, "Filter ", " that match the query").Some? then
      Some((Filter, Between(d, "Filter ", " that match the query").value))
    else None
  }

  /** The docstring determines the generator and the model: reading it back
      gives both, so no two generated handlers share a docstring unless they
      are the same operation on the same model. */
  lemma DocRoundTrip(op: Op, model: string)
    ensures ReadDoc(Doc(op, model)) == Some((op, model))
  {
    match op
    case All => BetweenOf("Query all ", model, "");
    case Create => CreateDocRoundTrip(model);
    case Get => GetDocRoundTrip(model);
    case Update => UpdateDocRoundTrip(model);
    case Delete => DeleteDocRoundTrip(model);
    case Filter => FilterDocRoundTrip(model);
  }

  lemma CreateDocRoundTrip(model: string)
    ensures ReadDoc(Doc(Create, model)) == Some((Create, model))
  {
    var d := Doc(Create, model);
    BetweenOf("Create ", model, "");
    assert |d| < 10 || d[..10] != "Query all " by { if |d| >= 10 { assert d[0] != 'Q'; } }
  }

  lemma GetDocRoundTrip(model: string)
    ensures ReadDoc(Doc(Get, model)) == Some((Get, model))
  {
    var d := Doc(Get, model);
    BetweenOf("Get ", model, " by primary key");
    assert |d| < 10 || d[..10] != "Query all " by { if |d| >= 10 { assert d[0] != 'Q'; } }
    assert |d| < 7 || d[..7] != "Create " by { if |d| >= 7 { assert d[0] != 'C'; } }
  }

  lemma UpdateDocRoundTrip(model: string)
    ensures ReadDoc(Doc(Update, model)) == Some((Update, model))
  {
    var d := Doc(Update, model);
    BetweenOf("Update ", model, " by primary key");
    assert |d| < 10 || d[..10] != "Query all " by { if |d| >= 10 { assert d[0] != 'Q'; } }
    assert |d| < 7 || d[..7] != "Create " by { if |d| >= 7 { assert d[0] != 'C'; } }
    assert d[..4] != "Get " by { assert d[0] != 'G'; }
  }

  lemma DeleteDocRoundTrip(model: string)
    ensures ReadDoc(Doc(Delete, model)) == Some((Delete, model))
  {
    var d := Doc(Delete, model);
    BetweenOf("Delete ", model, " by primary key");
    assert |d| < 10 || d[..10] != "Query all " by { if |d| >= 10 { assert d[0] != 'Q'; } }
    assert |d| < 7 || d[..7] != "Create " by { if |d| >= 7 { assert d[0] != 'C'; } }
    assert d[..4] != "Get " by { assert d[0] != 'G'; }
    assert d[..7] != "Update " by { assert d[0] != 'U'; }
  }

  lemma FilterDocRoundTrip(model: string)
    ensures ReadDoc(Doc(Filter, model)) == Some((Filter, model))
  {
    var d := Doc(Filter, model);
    BetweenOf("Filter ", model, " that match the query");
    assert |d| < 10 || d[..10] != "Query all " by { if |d| >= 10 { assert d[0] != 'Q'; } }
    assert |d| < 7 || d[..7] != "Create " by { if |d| >= 7 { assert d[0] != 'C'; } }
    assert d[..4] != "Get " by { assert d[0] != 'G'; }
    assert d[..7] != "Update " by { assert d[0] != 'U'; }
    assert d[..7] != "Delete " by { assert d[0] != 'D'; }
  }

  /** Each generator writes the docstring of its operation for the model's name. */
  lemma GeneratedDocs(model: ClassRef, schema: ClassRef, pkType: ClassRef, input: ClassRef, query: seq<QueryParam>)
    ensures ReadDoc(GenerateAll(model, schema).doc) == Some((All, model.name))
    ensures ReadDoc(GenerateCreate(model, schema, input).doc) == Some((Create, model.name))
    ensures ReadDoc(GenerateGet(model, schema, pkType).doc) == Some((Get, model.name))
    ensures ReadDoc(GenerateUpdate(model, schema, pkType, input).doc) == Some((Update, model.name))
    ensures ReadDoc(GenerateDelete(model, schema, pkType).doc) == Some((Delete, model.name))
    ensures ReadDoc(GenerateFilter(model, schema, query).doc) == Some((Filter, model.name))
  {
    assert GenerateAll(model, schema).doc == Doc(All, model.name);
    DocRoundTrip(All, model.name);
    assert GenerateCreate(model, schema, input).doc == Doc(Create, model.name);
    DocRoundTrip(Create, model.name);
    assert GenerateGet(model, schema, pkType).doc == Doc(Get, model.name);
    DocRoundTrip(Get, model.name);
    assert GenerateUpdate(model, schema, pkType, input).doc == Doc(Update, model.name);
    DocRoundTrip(Update, model.name);
    assert GenerateDelete(model, schema, pkType).doc == Doc(Delete, model.name);
    DocRoundTrip(Delete, model.name);
    assert GenerateFilter(model, schema, query).doc == Doc(Filter, model.name);
    DocRoundTrip(Filter, model.name);
  }

  // ---------------------------------------------------------------------
  // Route and signature agree.

  /** The names in `{...}` placeholders of a route path, left to right. */
  function PathParams(path: string): (names: seq<string>)
    decreases |path|
  {
    if |path| == 0 then []
    else if path[0] == '{' then
      var close := CloseBrace(path, 1);
      if close < |path| then [path[1..close]] + PathParams(path[close + 1..])
      else []
    else PathParams(path[1..])
  }

  /** The first `}` at or after `i`, or `|s|` when there is none. */
  function CloseBrace(s: string, i: nat): (j: nat)
    requires i <= |s|
    ensures i <= j <= |s|
    ensures j < |s| ==> s[j] == '}'
    ensures forall k :: i <= k < j ==> s[k] != '}'
    decreases |s| - i
  {
    if i == |s| || s[i] == '}' then i else CloseBrace(s, i + 1)
  }

  /** Where FastAPI reads the value of a handler parameter from. */
  datatype Binding = FromPath | FromBody | FromQuery

  /** A class FastAPI reads from the request body: any pydantic model, a
      dataclass or `dict`, as opposed to a scalar type. */
  predicate ReadsAsBody(c: ClassRef)
  {
    c.kind == PydanticSchema || c.kind == BodyModel
  }

  /** FastAPI's rule for the parameters the generators write: a parameter
      named in a path placeholder is read from the path; otherwise one
      annotated with a body class is read from the request body, and any
      other (a scalar type, or no annotation) from the query string. Whether
      the parameter is keyword-only plays no part. */
  function BindingOf(p: Param, meta: ActionMeta): Binding
  {
    if p.name in PathParams(meta.path) then FromPath
    else if p.annotation.Some? && ReadsAsBody(p.annotation.value) then FromBody
    else FromQuery
  }

  /** A parameter after `self` is read from the request body exactly when
      the route is a POST or a PATCH; the path placeholders are exactly the
      parameters bound from the path. */
  ghost predicate WellBound(f: Function)
  {
    && f.action.Some? && |f.params| > 0 && f.params[0] == SelfParam
    && ((exists i :: 1 <= i < |f.params| && BindingOf(f.params[i], f.action.value) == FromBody) <==>
          f.action.value.verb in {POST, PATCH})
    && (forall x :: x in PathParams(f.action.value.path) <==>
          exists i :: 1 <= i < |f.params| && f.params[i].name == x && BindingOf(f.params[i], f.action.value) == FromPath)
  }

  lemma PkPathParams()
    ensures PathParams("/{pk}") == ["pk"]
  {
    var s := "{pk}";
    assert s[1] == 'p' && s[2] == 'k' && s[3] == '}';
    assert CloseBrace(s, 2) == CloseBrace(s, 3) == 3;
    assert CloseBrace(s, 1) == 3;
    assert s[1..3] == "pk" && s[4..] == "";
    assert "/{pk}"[1..] == s;
  }

  lemma PlainPathParams()
    ensures PathParams("") == []
    ensures PathParams("/all") == []
    ensures PathParams("/filter") == []
  {
    assert "/all"[1..] == "all" && "all"[1..] == "ll" && "ll"[1..] == "l" && "l"[1..] == "";
    assert "/filter"[1..] == "filter" && "filter"[1..] == "ilter" && "ilter"[1..] == "lter";
    assert "lter"[1..] == "ter" && "ter"[1..] == "er" && "er"[1..] == "r" && "r"[1..] == "";
  }

  lemma AllIsBound(model: ClassRef, schema: ClassRef)
    ensures WellBound(GenerateAll(model, schema))
  {
    PlainPathParams();
  }

  lemma CreateIsBound(model: ClassRef, schema: ClassRef, input: ClassRef)
    requires ReadsAsBody(input)
    ensures WellBound(GenerateCreate(model, schema, input))
  {
    PlainPathParams();
    var c := GenerateCreate(model, schema, input);
    assert BindingOf(c.params[1], c.action.value) == FromBody;
  }

  lemma GetIsBound(model: ClassRef, schema: ClassRef, pkType: ClassRef)
    ensures WellBound(GenerateGet(model, schema, pkType))
  {
    PkPathParams();
    var g := GenerateGet(model, schema, pkType);
    assert BindingOf(g.params[1], g.action.value) == FromPath;
  }

  lemma UpdateIsBound(model: ClassRef, schema: ClassRef, pkType: ClassRef, input: ClassRef)
    requires ReadsAsBody(input)
    ensures WellBound(GenerateUpdate(model, schema, pkType, input))
  {
    PkPathParams();
    var u := GenerateUpdate(model, schema, pkType, input);
    assert BindingOf(u.params[1], u.action.value) == FromPath;
    assert BindingOf(u.params[2], u.action.value) == FromBody;
  }

  lemma DeleteIsBound(model: ClassRef, schema: ClassRef, pkType: ClassRef)
    ensures WellBound(GenerateDelete(model, schema, pkType))
  {
    PkPathParams();
    var g := GenerateDelete(model, schema, pkType);
    assert BindingOf(g.params[1], g.action.value) == FromPath;
  }

  /** With a body class as the input type, exactly `create` and `update`
      read a body and `get`, `update` and `delete` read `pk` from the path. */
  lemma CrudParamsAreBound(model: ClassRef, schema: ClassRef, pkType: ClassRef, input: ClassRef)
    requires ReadsAsBody(input)
    ensures WellBound(GenerateAll(model, schema))
    ensures WellBound(GenerateCreate(model, schema, input))
    ensures WellBound(GenerateGet(model, schema, pkType))
    ensures WellBound(GenerateUpdate(model, schema, pkType, input))
    ensures WellBound(GenerateDelete(model, schema, pkType))
  {
    AllIsBound(model, schema);
    CreateIsBound(model, schema, input);
    GetIsBound(model, schema, pkType);
    UpdateIsBound(model, schema, pkType, input);
    DeleteIsBound(model, schema, pkType);
  }

  /** A `create` handler whose input type is a scalar type would read its
      `body` from the query string: the route is a POST that reads no body,
      so it is not well bound. */
  lemma CreateWithPlainInputReadsNoBody(model: ClassRef, schema: ClassRef, input: ClassRef)
    requires input.kind == PlainType
    ensures !WellBound(GenerateCreate(model, schema, input))
  {
    PlainPathParams();
    var c := GenerateCreate(model, schema, input);
    assert BindingOf(c.params[1], c.action.value) == FromQuery;
  }

  /** `filter` binds every query parameter of a scalar type from the query
      string, and so reads no body. */
  lemma FilterParamsAreBound(model: ClassRef, schema: ClassRef, query: seq<QueryParam>)
    requires forall i :: 0 <= i < |query| ==> query[i].valueType.kind == PlainType
    ensures WellBound(GenerateFilter(model, schema, query))
    ensures forall i :: 1 <= i < |GenerateFilter(model, schema, query).params| ==>
      BindingOf(GenerateFilter(model, schema, query).params[i], GenerateFilter(model, schema, query).action.value) == FromQuery
  {
    PlainPathParams();
    var f := GenerateFilter(model, schema, query);
    var meta := f.action.value;
    assert PathParams(meta.path) == [];
    forall i | 1 <= i < |f.params|
      ensures BindingOf(f.params[i], meta) == FromQuery
    {
      assert f.params[i].annotation == Some(query[i - 1].valueType);
    }
  }

  /** A `query_params` entry whose type is a body class (`dict`, a pydantic
      model) is read from the request body, so the GET route of `filter`
      would read a body and is not well bound. */
  lemma FilterWithBodyTypedParameterReadsBody(model: ClassRef, schema: ClassRef, query: seq<QueryParam>, j: nat)
    requires j < |query| && ReadsAsBody(query[j].valueType)
    ensures BindingOf(GenerateFilter(model, schema, query).params[j + 1], GenerateFilter(model, schema, query).action.value) == FromBody
    ensures !WellBound(GenerateFilter(model, schema, query))
  {
    PlainPathParams();
    var f := GenerateFilter(model, schema, query);
    assert PathParams(f.action.value.path) == [];
    assert f.params[j + 1].annotation == Some(query[j].valueType);
  }

  // ---------------------------------------------------------------------
  // Running a handler body.

  /** The arguments of one call: the `pk`, the validated body, the keyword
      arguments of a filter, and the key the store gives a created row. */
  datatype Call = Call(pk: Scalar, body: Body, kwargs: map<string, Scalar>, newKey: Scalar)

  /** What a generated handler does with the store; None for a hand-written
      body, which this model does not interpret. */
  function Run(impl: Impl, t: Table, c: Call): (o: Option<Outcome>)
    ensures o.Some? <==> impl.Generated?
    ensures o.Some? && impl.op in {All, Get, Filter} ==> o.value.table == t
    ensures o.Some? && o.value.Failed? ==> o.value.table == t
    ensures o.Some? && o.value.Done? && impl.op == Create ==> o.value.table.Keys == t.Keys + {c.newKey}
    ensures o.Some? && o.value.Done? && impl.op == Update ==> o.value.table.Keys == t.Keys
    ensures o.Some? && o.value.Done? && impl.op == Delete ==> o.value.table.Keys == t.Keys - {c.pk}
    ensures impl.Generated? && impl.op == All ==> o == Some(ListAll(t))
    ensures impl.Generated? && impl.op == Create ==> o == Some(CreateRow(t, c.newKey, c.body))
    ensures impl.Generated? && impl.op == Get ==> o == Some(GetRow(t, c.pk))
    ensures impl.Generated? && impl.op == Update ==> o == Some(UpdateRow(t, c.pk, c.body))
    ensures impl.Generated? && impl.op == Delete ==> o == Some(DeleteRow(t, c.pk))
    ensures impl.Generated? && impl.op == Filter ==> o == Some(FilterRows(t, impl.query, c.kwargs))
  {
    match impl
    case HandWritten(_) => None
    case Generated(op, _, _, _, _, query) =>
      match op
      case All => Some(ListAll(t))
      case Create => Some(CreateRow(t, c.newKey, c.body))
      case Get => Some(GetRow(t, c.pk))
      case Update => Some(UpdateRow(t, c.pk, c.body))
      case Delete => Some(DeleteRow(t, c.pk))
      case Filter => Some(FilterRows(t, query, c.kwargs))
  }

  /** Only `create` adds rows and only `delete` removes them: no other
      generated handler changes which keys the store holds. */
  lemma OnlyCreateAndDeleteChangeKeys(impl: Impl, t: Table, c: Call)
    requires impl.Generated? && impl.op !in {Create, Delete}
    ensures Run(impl, t, c).value.table.Keys == t.Keys
  {
  }
}
