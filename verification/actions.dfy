/**
  What a handler is, as the view-set machinery sees it: a function object
  with a name, a docstring, a call signature, optional route metadata
  (`__fast_view__`, attached by the `Action` decorator) and a body.
 */
module Actions {
  import opened Basics

  datatype HttpMethod = GET | POST | PUT | PATCH | DELETE

  /** The `response_model` a route declares. */
  datatype ResponseModel = NoModel | One(schema: string) | ListOf(schema: string)

  /** `__fast_view__`: path fragment, HTTP method (`verb`), response shape, summary, tags
      and documented error responses (status code to error model name). */
  datatype ActionMeta = ActionMeta(
    path: string,
    verb: HttpMethod,
    response: ResponseModel,
    summary: Option<string>,
    tags: Option<seq<string>>,
    responses: map<int, string>)

  /** What a class object is:
      - `OrmModel`: a subclass of tortoise's `Model`;
      - `PydanticSchema`: a subclass of tortoise's `PydanticModel`, the only
        kind the view-set checks accept as `schema` or as a `create`/`update` input;
      - `BodyModel`: any other class FastAPI reads from a request body, such as
        a plain pydantic `BaseModel`, a dataclass or `dict`;
      - `PlainType`: a scalar type (`int`, `str`, `float`, `bool`, ...). */
  datatype ClassKind = OrmModel | PydanticSchema | BodyModel | PlainType

  datatype ClassRef = ClassRef(name: string, kind: ClassKind)

  datatype ParamKind = PositionalOrKeyword | KeywordOnly

  /** One `inspect.Parameter`: name, kind, default (None when it has none) and annotated class. */
  datatype Param = Param(name: string, kind: ParamKind, default: Option<Scalar>, annotation: Option<ClassRef>)

  /** One entry `name: (default_value, default_type)` of a filter's `query_params`; `default_type` is a class. */
  datatype QueryParam = QueryParam(name: string, default: Scalar, valueType: ClassRef)

  /** The six handlers the factory can generate. */
  datatype Op = All | Create | Get | Update | Delete | Filter

  /** A handler body: one the factory generated, with what it closed over, or a hand-written one. */
  datatype Impl =
    | Generated(op: Op, model: ClassRef, schema: ClassRef, pkType: Option<ClassRef>,
                input: Option<ClassRef>, query: seq<QueryParam>)
    | HandWritten(body: string)

  /** A Python function object. */
  datatype Function = Function(name: string, doc: string, params: seq<Param>, action: Option<ActionMeta>, impl: Impl)

  /** The implicit first parameter of every handler. */
  const SelfParam: Param := Param("self", PositionalOrKeyword, None, None)

  /** `responses={404: {"model": HTTPNotFoundError}}`. */
  const NotFoundDoc: map<int, string> := map[404 := "HTTPNotFoundError"]
}
