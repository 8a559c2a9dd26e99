/**
  The generated handler bodies (fast_cbv/factory.py), run against an
  in-memory table in place of the ORM: rows keyed by primary key, each row a
  map from field name to value, and the schema projection taken as the
  identity.
 */
module Storage {
  import opened Basics
  import opened Actions

  type Entity = map<string, Scalar>
  type Table = map<Scalar, Entity>

  /** A validated input-schema instance: every field's value (defaults
      included) and the fields the client explicitly set. */
  datatype Body = Body(fields: map<string, Scalar>, explicit: set<string>)

  /** `body.dict(exclude_unset=True)`: only the explicitly set fields. */
  function SetFields(b: Body): (d: map<string, Scalar>)
    ensures d.Keys == b.fields.Keys * b.explicit
    ensures forall f :: f in d ==> d[f] == b.fields[f]
  {
    map f | f in b.fields && f in b.explicit :: b.fields[f]
  }

  datatype Failure = NotFound | IntegrityError

  /** What a handler answers: one projected row, or a collection of rows. */
  datatype Reply = Row(row: Entity) | Rows(rows: Table)

  /** The table after the call, and the reply or the failure. */
  datatype Outcome = Done(table: Table, reply: Reply) | Failed(table: Table, error: Failure)

  /** `all`: every row. */
  function ListAll(t: Table): (o: Outcome)
    ensures o.Done? && o.table == t
    ensures o.reply.Rows? && forall k :: k in t <==> k in o.reply.rows
    ensures forall k :: k in o.reply.rows ==> o.reply.rows[k] == t[k]
  {
    Done(t, Rows(t))
  }

  /** `create`: a new row from every field of the body (`model.create(**body.dict())`);
      `key` is the primary key the store gives it, and a key already taken is an integrity error. */
  function CreateRow(t: Table, key: Scalar, b: Body): (o: Outcome)
    ensures o.Failed? <==> key in t
    ensures o.Failed? ==> o.table == t && o.error == IntegrityError
    ensures o.Done? ==> o.table.Keys == t.Keys + {key} && o.table[key] == b.fields && o.reply == Row(b.fields)
    ensures o.Done? ==> forall k :: k in t ==> o.table[k] == t[k]
  {
    if key in t then Failed(t, IntegrityError)
    else Done(t[key := b.fields], Row(b.fields))
  }

  /** `get`: the row under `pk`, or not-found; the table never changes. */
  function GetRow(t: Table, pk: Scalar): (o: Outcome)
    ensures o.table == t
    ensures o.Done? <==> pk in t
    ensures o.Done? ==> o.reply == Row(t[pk])
    ensures o.Failed? ==> o.error == NotFound
  {
    if pk in t then Done(t, Row(t[pk])) else Failed(t, NotFound)
  }

  /** `update`: fetch the row, overwrite only the explicitly set fields
      (`update_from_dict(body.dict(exclude_unset=True))`), save, answer the saved row. */
  function UpdateRow(t: Table, pk: Scalar, b: Body): (o: Outcome)
    ensures o.Failed? <==> pk !in t
    ensures o.Failed? ==> o.table == t && o.error == NotFound
    ensures o.Done? ==> o.table.Keys == t.Keys && (forall k :: k in t && k != pk ==> o.table[k] == t[k])
    ensures o.Done? ==> o.reply == Row(o.table[pk])
    ensures o.Done? ==> o.table[pk].Keys == t[pk].Keys + (b.fields.Keys * b.explicit)
    ensures o.Done? ==> forall f :: f in b.fields && f in b.explicit ==> o.table[pk][f] == b.fields[f]
    ensures o.Done? ==> forall f :: f in t[pk] && !(f in b.fields && f in b.explicit) ==> o.table[pk][f] == t[pk][f]
  {
    if pk !in t then Failed(t, NotFound)
    else
      var saved := t[pk] + SetFields(b);
      Done(t[pk := saved], Row(saved))
  }

  /** `delete`: fetch the row, delete it, answer the row as fetched before deletion. */
  function DeleteRow(t: Table, pk: Scalar): (o: Outcome)
    ensures o.Failed? <==> pk !in t
    ensures o.Failed? ==> o.table == t && o.error == NotFound
    ensures o.Done? ==> o.table.Keys == t.Keys - {pk} && forall k :: k in o.table ==> o.table[k] == t[k]
    ensures o.Done? ==> o.reply == Row(t[pk])
  {
    if pk !in t then Failed(t, NotFound)
    else Done(t - {pk}, Row(t[pk]))
  }

  // ---------------------------------------------------------------------
  // filter: a conjunction of equalities, built one query parameter at a time.

  /** One `Q(name=value)` term. */
  datatype Condition = Condition(field: string, value: Scalar)

  /** True when the call supplied `name` with a value other than None. */
  predicate Supplied(kwargs: map<string, Scalar>, name: string)
  {
    name in kwargs && kwargs[name] != Null
  }

  /** The loop that builds `q_filter`: starting from `Q()`, conjoin
      `Q(name=kwargs[name])` for each query parameter, in order, that was supplied. */
  function Conditions(query: seq<QueryParam>, kwargs: map<string, Scalar>): (cs: seq<Condition>)
    ensures |cs| <= |query|
  {
    if |query| == 0 then []
    else
      var rest := Conditions(query[1..], kwargs);
      if Supplied(kwargs, query[0].name) then [Condition(query[0].name, kwargs[query[0].name])] + rest
      else rest
  }

  /** A row satisfies a conjunction of equalities. */
  predicate Matches(e: Entity, cs: seq<Condition>)
  {
    forall i :: 0 <= i < |cs| ==> cs[i].field in e && e[cs[i].field] == cs[i].value
  }

  /** The rows of `t` that satisfy `cs`. */
  function Select(t: Table, cs: seq<Condition>): (rows: Table)
    ensures forall k :: k in rows <==> k in t && Matches(t[k], cs)
    ensures forall k :: k in rows ==> rows[k] == t[k]
  {
    map k | k in t && Matches(t[k], cs) :: t[k]
  }

  /** `filter`: the rows matching every supplied query parameter. */
  function FilterRows(t: Table, query: seq<QueryParam>, kwargs: map<string, Scalar>): (o: Outcome)
    ensures o.Done? && o.table == t && o.reply.Rows?
  {
    Done(t, Rows(Select(t, Conditions(query, kwargs))))
  }

  /** A row agrees with every query parameter, in order, that was supplied. */
  predicate AgreesOnSupplied(e: Entity, query: seq<QueryParam>, kwargs: map<string, Scalar>)
  {
    forall i :: 0 <= i < |query| && Supplied(kwargs, query[i].name) ==>
      query[i].name in e && e[query[i].name] == kwargs[query[i].name]
  }

  /** The declarative reading of the filter: a row is kept exactly when it
      agrees with every query parameter that was supplied. */
  lemma {:induction false} ConditionsMeanSuppliedEqualities(query: seq<QueryParam>, kwargs: map<string, Scalar>, e: Entity)
    ensures Matches(e, Conditions(query, kwargs)) <==> AgreesOnSupplied(e, query, kwargs)
  {
    if |query| > 0 {
      ConditionsMeanSuppliedEqualities(query[1..], kwargs, e);
      var q := query[0];
      var rest := Conditions(query[1..], kwargs);
      var here := Supplied(kwargs, q.name) ==> q.name in e && e[q.name] == kwargs[q.name];
      assert AgreesOnSupplied(e, query, kwargs) <==> here && AgreesOnSupplied(e, query[1..], kwargs) by {
        assert forall i :: 1 <= i < |query| ==> query[i] == query[1..][i - 1];
        if here && AgreesOnSupplied(e, query[1..], kwargs) {
          forall i | 0 <= i < |query| && Supplied(kwargs, query[i].name)
            ensures query[i].name in e && e[query[i].name] == kwargs[query[i].name]
          {
            if i > 0 {
              assert query[1..][i - 1] == query[i];
            }
          }
        }
        if AgreesOnSupplied(e, query, kwargs) {
          forall i | 0 <= i < |query[1..]| && Supplied(kwargs, query[1..][i].name)
            ensures query[1..][i].name in e && e[query[1..][i].name] == kwargs[query[1..][i].name]
          {
            assert query[1..][i] == query[i + 1];
          }
        }
      }
      if Supplied(kwargs, q.name) {
        var c := Condition(q.name, kwargs[q.name]);
        assert Conditions(query, kwargs) == [c] + rest;
        MatchesCons(e, c, rest);
      }
    }
  }

  lemma MatchesCons(e: Entity, c: Condition, rest: seq<Condition>)
    ensures Matches(e, [c] + rest) <==> c.field in e && e[c.field] == c.value && Matches(e, rest)
  {
    var cs := [c] + rest;
    assert cs[0] == c;
    assert forall i :: 1 <= i < |cs| ==> cs[i] == rest[i - 1];
    if c.field in e && e[c.field] == c.value && Matches(e, rest) {
      forall i | 0 <= i < |cs|
        ensures cs[i].field in e && e[cs[i].field] == cs[i].value
      {
        if i > 0 {
          assert cs[i] == rest[i - 1];
        }
      }
    }
    if Matches(e, cs) {
      forall i | 0 <= i < |rest|
        ensures rest[i].field in e && e[rest[i].field] == rest[i].value
      {
        assert cs[i + 1] == rest[i];
      }
    }
  }

  /** The filter answers exactly the rows that agree with every supplied parameter. */
  lemma FilterKeepsExactlyAgreeingRows(t: Table, query: seq<QueryParam>, kwargs: map<string, Scalar>)
    ensures var rows := FilterRows(t, query, kwargs).reply.rows;
      forall k :: k in rows <==> k in t && AgreesOnSupplied(t[k], query, kwargs)
  {
    forall k | k in t {
      ConditionsMeanSuppliedEqualities(query, kwargs, t[k]);
    }
  }

  /** Every filter answer is a part of what `all` answers. */
  lemma FilterIsPartOfAll(t: Table, query: seq<QueryParam>, kwargs: map<string, Scalar>)
    ensures var rows := FilterRows(t, query, kwargs).reply.rows;
      rows.Keys <= ListAll(t).reply.rows.Keys && forall k :: k in rows ==> rows[k] == ListAll(t).reply.rows[k]
  {
  }

  /** With no parameter supplied, the filter answers what `all` answers. */
  lemma FilterWithoutParametersIsAll(t: Table, query: seq<QueryParam>, kwargs: map<string, Scalar>)
    requires forall i :: 0 <= i < |query| ==> !Supplied(kwargs, query[i].name)
    ensures FilterRows(t, query, kwargs).reply == ListAll(t).reply
  {
    forall k | k in t {
      ConditionsMeanSuppliedEqualities(query, kwargs, t[k]);
    }
    assert Select(t, Conditions(query, kwargs)) == t;
  }

  /** With exactly one parameter supplied, the filter answers exactly the rows
      whose field equals the supplied value. */
  lemma FilterOnOneParameter(t: Table, query: seq<QueryParam>, kwargs: map<string, Scalar>, j: nat)
    requires j < |query|
    requires Supplied(kwargs, query[j].name)
    requires forall i :: 0 <= i < |query| && query[i].name != query[j].name ==> !Supplied(kwargs, query[i].name)
    ensures var name := query[j].name; var rows := FilterRows(t, query, kwargs).reply.rows;
      forall k :: k in rows <==> k in t && name in t[k] && t[k][name] == kwargs[name]
  {
    FilterKeepsExactlyAgreeingRows(t, query, kwargs);
  }

  /** Keyword arguments that are not query parameters are ignored. */
  lemma {:induction false} FilterIgnoresOtherArguments(query: seq<QueryParam>, kwargs: map<string, Scalar>, name: string, v: Scalar)
    requires forall i :: 0 <= i < |query| ==> query[i].name != name
    ensures Conditions(query, kwargs[name := v]) == Conditions(query, kwargs)
  {
    if |query| > 0 {
      FilterIgnoresOtherArguments(query[1..], kwargs, name, v);
    }
  }

  // ---------------------------------------------------------------------
  // Properties relating several handler calls.

  /** After a successful delete, `get` on the same key is not-found, and the
      delete's reply is the row `get` answered before. */
  lemma DeleteThenGetIsNotFound(t: Table, pk: Scalar)
    requires pk in t
    ensures DeleteRow(t, pk).reply == GetRow(t, pk).reply
    ensures GetRow(DeleteRow(t, pk).table, pk) == Failed(DeleteRow(t, pk).table, NotFound)
  {
  }

  /** `get` after a successful create answers the created row. */
  lemma CreateThenGet(t: Table, key: Scalar, b: Body)
    requires key !in t
    ensures GetRow(CreateRow(t, key, b).table, key).reply == CreateRow(t, key, b).reply
  {
  }

  /** Updating with a body that sets nothing leaves the table as it was. */
  lemma UpdateWithNothingSetKeepsRow(t: Table, pk: Scalar, b: Body)
    requires pk in t
    requires b.explicit * b.fields.Keys == {}
    ensures UpdateRow(t, pk, b) == Done(t, Row(t[pk]))
  {
    assert SetFields(b).Keys == {};
    assert t[pk] + SetFields(b) == t[pk];
    assert t[pk := t[pk]] == t;
  }

  /** A partial update: `{username: "a", name: "b"}` patched with a body whose
      only explicitly set field is `username: "c"` (its `name` left at the
      schema default None) becomes `{username: "c", name: "b"}`. */
  lemma PartialUpdateExample()
    ensures var t := map[Int(1) := map["username" := Str("a"), "name" := Str("b")]];
      var b := Body(map["username" := Str("c"), "name" := Null], {"username"});
      UpdateRow(t, Int(1), b).reply == Row(map["username" := Str("c"), "name" := Str("b")])
  {
    var b := Body(map["username" := Str("c"), "name" := Null], {"username"});
    assert SetFields(b) == map["username" := Str("c")];
  }
}
