/**
 `DrillDownAPIView.get`: the steps of a GET request in the order the view
 takes them. Each step that can fail ends the request with a 400 and its
 message; the filter warning, if any, travels with the response. The query
 engine (filtering, ordering, counting) and Python's `int` are parameters.
 */
module View {
  import opened Wrappers
  import opened Strings
  import opened Schema
  import opened Paths
  import opened Drilldowns
  import opened FieldsMap
  import opened Filters
  import opened Pagination
  import opened Projection

  /** The class attributes a concrete view sets. */
  datatype ViewConfig = ViewConfig(
    model: string,
    drilldowns: seq<string>,
    ignore: seq<string>,
    hidePaths: seq<string>,
    picky: bool,
    throttle: Option<int>)

  /**
   What `qs.filter(**kwargs)` does: the matching rows, one of the two
   errors the view traps (`FieldError`, `ValueError`), or any other
   exception (a `ValidationError` for a malformed date, say), which it does
   not trap.
   */
  datatype Query<R> = Rows(rows: seq<R>) | BadFilterField | BadFilterValue | Raised

  /**
   Everything outside the view: the schema, the serializers' default
   fields, whether `get_base_query` returns a query, the query engine, and
   `int`. `orderRaises` is Django's check of the `order_by` arguments when
   `qs.order_by` is called (a key such as `""` or `" id"` that is not of the
   form `[-+]?[.\w]+`), an exception outside every `try`. `order` gives the
   rows sorted by the keys, or nothing when a key that passes that check
   is not a field (Django reports that when the page is read).
   */
  datatype Env<!R> = Env(
    schema: Schema,
    defaults: Defaults,
    hasBaseQuery: bool,
    filter: map<string, FilterValue> -> Query<R>,
    orderRaises: seq<string> -> bool,
    order: (seq<R>, seq<string>) -> Option<seq<R>>,
    parseInt: string -> Option<int>)

  /** The query the view runs: the joins, the filter keywords and the ordering. */
  datatype Plan = Plan(selects: seq<string>, prefetches: seq<string>, kwargs: map<string, FilterValue>, orderBy: seq<string>)

  /**
   The response: a 400 with `X-Query_Error`, a 200 with the page, the
   serializer shape and `X-Total-Count`, or an exception the view does not
   trap (from the filter, from `qs.order_by`, or Django refusing a negative
   slice bound). `X-Query_Warning` goes with
   the first two when a warning was set.
   */
  datatype Response<R> =
    | Failed(message: string, warning: Option<string>)
    | Served(plan: Plan, page: seq<R>, shape: Projection, total: nat, warning: Option<string>)
    | Unhandled

  function Status<R>(r: Response<R>): int
  {
    match r
    case Failed(_, _) => 400
    case Served(_, _, _, _, _) => 200
    case Unhandled => 500
  }

  const NoBaseQuery: string := "API error: get_base_query() missing or invalid"
  const BadFilterParameter: string := "Bad filter parameter in query."
  const BadFilterValueMessage: string := "Bad filter value in query"
  const BadOrderBy: string := "Error: May be bad field name in order_by"

  /** `QUERY_PARAMS.get(name)`: the last value given for `name`. */
  function Lookup(params: seq<(string, string)>, name: string): (r: Option<string>)
    ensures r.None? <==> forall i :: 0 <= i < |params| ==> params[i].0 != name
    ensures r.Some? ==> exists i :: && 0 <= i < |params| && params[i] == (name, r.value)
                                    && forall j :: i < j < |params| ==> params[j].0 != name
    decreases |params|
  {
    if |params| == 0 then None
    else
      var n := |params| - 1;
      if params[n].0 == name then Some(params[n].1)
      else
        var r := Lookup(params[..n], name);
        assert forall i :: 0 <= i < n ==> params[..n][i] == params[i];
        r
  }

  /** `int_or_none(QUERY_PARAMS.get(name)) or 0`. */
  function IntParam<R>(env: Env<R>, params: seq<(string, string)>, name: string): int
  {
    match Lookup(params, name)
    case None => 0
    case Some(text) => OrZero(env.parseInt(text))
  }

  /** The `order_by` keys, the effective offset and the effective limit of a request. */
  function Paging<R>(v: ViewConfig, env: Env<R>, params: seq<(string, string)>): (seq<string>, int, int)
  {
    (OrderBy(Lookup(params, "order_by")), IntParam(env, params, "offset"),
     EffectiveLimit(v.throttle, IntParam(env, params, "limit")))
  }

  /** The scope the fields compiler runs in: the validated drilldowns and the dotted hide list. */
  function ScopeOf(s: Schema, v: ViewConfig, validated: seq<string>): Scope
  {
    Scope(s, validated, HideFields(v.hidePaths))
  }

  /** `get`, step by step: the base query, then the drilldowns. */
  function Get<R>(v: ViewConfig, env: Env<R>, params: seq<(string, string)>): Response<R>
    requires WellFormed(env.schema)
  {
    if !env.hasBaseQuery then Failed(NoBaseQuery, None)
    else Validated(v, env, params, ValidateDrilldowns(env.schema, v.model, v.drilldowns))
  }

  /** The validated drilldowns, then the `fields` parameter. */
  function Validated<R>(v: ViewConfig, env: Env<R>, params: seq<(string, string)>, w: Walk): Response<R>
    requires WellFormed(env.schema)
  {
    if w.error.Some? then Failed(w.error.value, None)
    else
      var fm := CreateFieldsMap(ScopeOf(env.schema, v, w.paths), v.model, FieldsParam(Lookup(params, "fields")));
      Mapped(v, env, params, w.paths, fm)
  }

  /** The compiled fields map, then the filter parameters. */
  function Mapped<R>(v: ViewConfig, env: Env<R>, params: seq<(string, string)>, validated: seq<string>, fm: Step): Response<R>
  {
    if fm.acc.error.Some? then Failed(fm.acc.error.value, None)
    else
      var filters := Prefilter(params, IgnoreFields(v.ignore, v.hidePaths));
      Filtered(v, env, params, fm, SetFilterKwargs(env.schema, validated, v.picky, v.model, filters))
  }

  /** The filter keywords, then the query. */
  function Filtered<R>(v: ViewConfig, env: Env<R>, params: seq<(string, string)>, fm: Step, fk: Filters): Response<R>
  {
    if fk.error.Some? then Failed(fk.error.value, fk.warning)
    else
      match env.filter(fk.kwargs)
      case BadFilterField => Failed(BadFilterParameter, fk.warning)
      case BadFilterValue => Failed(BadFilterValueMessage, fk.warning)
      case Raised => Unhandled
      case Rows(rows) => Queried(v, env, params, fm, fk, rows)
  }

  /** The filtered rows: ordered, sliced, counted and given their serializer. */
  function Queried<R>(v: ViewConfig, env: Env<R>, params: seq<(string, string)>, fm: Step, fk: Filters, rows: seq<R>): Response<R>
  {
    var (orderBy, offset, limit) := Paging(v, env, params);
    if orderBy != [] && env.orderRaises(orderBy) then Unhandled
    else if Page(rows, offset, limit).None? then Unhandled
    else
      var sorted := if orderBy == [] then Some(rows) else env.order(rows, orderBy);
      match sorted
      case None => Failed(BadOrderBy, fk.warning)
      case Some(ordered) =>
        if Page(ordered, offset, limit).None? then Unhandled
        else
          var page := Page(ordered, offset, limit).value;
          var plan := Plan(fm.acc.selects, fm.acc.prefetches, fk.kwargs, orderBy);
          Served(plan, page, Prune(env.schema, env.defaults, v.model, fm.tree),
                 TotalCount(offset, limit, |page|, |rows|), fk.warning)
  }

  /** Sorting keeps the number of rows, as it does when no key crosses a to-many relation. */
  ghost predicate OrderKeepsCount<R(!new)>(env: Env<R>)
  {
    forall rows, keys :: env.order(rows, keys).Some? ==> |env.order(rows, keys).value| == |rows|
  }

  /** The steps before the query runs fail in order: a missing base query, then the drilldowns. */
  lemma GetFailsEarly<R>(v: ViewConfig, env: Env<R>, params: seq<(string, string)>)
    requires WellFormed(env.schema)
    ensures !env.hasBaseQuery ==> Get(v, env, params) == Failed(NoBaseQuery, None)
    ensures env.hasBaseQuery && !AllDeclaredValid(env.schema, v.model, v.drilldowns) ==>
      var r := Get(v, env, params);
      r.Failed? && r.warning.None? && Drilldowns.ErrorPrefix <= r.message
  {
    ValidateDrilldownsSpec(env.schema, v.model, v.drilldowns);
    DrilldownErrorPrefix(env.schema, v.model, v.drilldowns);
  }

  /**
   A served response went through every step: the base query exists, the
   drilldowns, the fields map and the filter keywords have no error, and
   the query returned rows.
   */
  lemma ServedUnfold<R>(v: ViewConfig, env: Env<R>, params: seq<(string, string)>)
    requires WellFormed(env.schema)
    requires Get(v, env, params).Served?
    ensures var w := ValidateDrilldowns(env.schema, v.model, v.drilldowns);
      var fm := CreateFieldsMap(ScopeOf(env.schema, v, w.paths), v.model, FieldsParam(Lookup(params, "fields")));
      var fk := SetFilterKwargs(env.schema, w.paths, v.picky, v.model, Prefilter(params, IgnoreFields(v.ignore, v.hidePaths)));
      && env.hasBaseQuery && w.error.None? && fm.acc.error.None? && fk.error.None?
      && env.filter(fk.kwargs).Rows?
      && Get(v, env, params) == Queried(v, env, params, fm, fk, env.filter(fk.kwargs).rows)
  {
    var w := ValidateDrilldowns(env.schema, v.model, v.drilldowns);
    assert Get(v, env, params) == Validated(v, env, params, w);
    var fm := CreateFieldsMap(ScopeOf(env.schema, v, w.paths), v.model, FieldsParam(Lookup(params, "fields")));
    assert Validated(v, env, params, w) == Mapped(v, env, params, w.paths, fm);
    var fk := SetFilterKwargs(env.schema, w.paths, v.picky, v.model, Prefilter(params, IgnoreFields(v.ignore, v.hidePaths)));
    assert Mapped(v, env, params, w.paths, fm) == Filtered(v, env, params, fm, fk);
    FilteredServed(v, env, params, fm, fk);
  }

  /** A served response from the filter stage: no filter error, and the query returned rows. */
  lemma FilteredServed<R>(v: ViewConfig, env: Env<R>, params: seq<(string, string)>, fm: Step, fk: Filters)
    requires Filtered(v, env, params, fm, fk).Served?
    ensures fk.error.None? && env.filter(fk.kwargs).Rows?
    ensures Filtered(v, env, params, fm, fk) == Queried(v, env, params, fm, fk, env.filter(fk.kwargs).rows)
  {
  }

  /**
   What a served response is made of: the plan of the fields map and the
   filter keywords, the page of the sorted rows and the count of the
   filtered ones.
   */
  lemma QueriedServed<R>(v: ViewConfig, env: Env<R>, params: seq<(string, string)>, fm: Step, fk: Filters, rows: seq<R>)
    requires Queried(v, env, params, fm, fk, rows).Served?
    ensures var r := Queried(v, env, params, fm, fk, rows);
      var (orderBy, offset, limit) := Paging(v, env, params);
      var sorted := if orderBy == [] then Some(rows) else env.order(rows, orderBy);
      && r.plan == Plan(fm.acc.selects, fm.acc.prefetches, fk.kwargs, orderBy)
      && r.warning == fk.warning
      && r.shape == Prune(env.schema, env.defaults, v.model, fm.tree)
      && sorted.Some? && Page(sorted.value, offset, limit) == Some(r.page)
      && r.total == TotalCount(offset, limit, |r.page|, |rows|)
  {
  }

  /**
   A served response is bounded, and its total is the one `get` reports:
   with an offset or a full page, the number of rows the filters match
   (the count query, taken before the ordering); otherwise the length of
   the page, which then holds all of the ordered rows. Ordering across a
   to-many relation repeats a row once per related row, so the two counts
   can differ, and `X-Total-Count` then depends on the limit.
   */
  lemma ServedCounts<R>(v: ViewConfig, env: Env<R>, params: seq<(string, string)>)
    requires WellFormed(env.schema)
    requires Get(v, env, params).Served?
    ensures var r := Get(v, env, params);
      var (orderBy, offset, limit) := Paging(v, env, params);
      && env.filter(r.plan.kwargs).Rows?
      && (var rows := env.filter(r.plan.kwargs).rows;
          && (orderBy != [] ==> env.order(rows, orderBy).Some?)
          && (var ordered := if orderBy == [] then rows else env.order(rows, orderBy).value;
              && (offset != 0 || (|r.page| != 0 && |r.page| == limit) ==> r.total == |rows|)
              && (offset == 0 && !(|r.page| != 0 && |r.page| == limit) ==>
                    r.page == ordered && r.total == |ordered|)))
      && (limit > 0 ==> |r.page| <= limit)
      && offset >= 0 && offset + limit >= 0
  {
    ServedUnfold(v, env, params);
    var w := ValidateDrilldowns(env.schema, v.model, v.drilldowns);
    var fm := CreateFieldsMap(ScopeOf(env.schema, v, w.paths), v.model, FieldsParam(Lookup(params, "fields")));
    var fk := SetFilterKwargs(env.schema, w.paths, v.picky, v.model, Prefilter(params, IgnoreFields(v.ignore, v.hidePaths)));
    var rows := env.filter(fk.kwargs).rows;
    QueriedServed(v, env, params, fm, fk, rows);
    var (orderBy, offset, limit) := Paging(v, env, params);
    var ordered := (if orderBy == [] then Some(rows) else env.order(rows, orderBy)).value;
    PageSpec(ordered, offset, limit);
    var page := Get(v, env, params).page;
    if offset == 0 && !(|page| != 0 && |page| == limit) {
      ShortPageIsAll(ordered, offset, limit);
    }
  }

  /**
   When the ordering keeps the number of rows (no `order_by`, or keys that
   do not cross a to-many relation), `X-Total-Count` is exactly the number
   of rows the filters match, whatever the limit and the offset.
   */
  lemma ServedCountsExact<R(!new)>(v: ViewConfig, env: Env<R>, params: seq<(string, string)>)
    requires WellFormed(env.schema)
    requires Paging(v, env, params).0 == [] || OrderKeepsCount(env)
    requires Get(v, env, params).Served?
    ensures var r := Get(v, env, params);
      env.filter(r.plan.kwargs).Rows? && r.total == |env.filter(r.plan.kwargs).rows|
  {
    ServedCounts(v, env, params);
  }

  /**
   A served response stays inside what the view allows: the joins and the
   nested serializers follow validated drilldowns only, and the shape shows
   nothing the fields map did not ask for, and so nothing the `fields`
   parameter did not ask for.
   */
  lemma ServedShape<R>(v: ViewConfig, env: Env<R>, params: seq<(string, string)>)
    requires WellFormed(env.schema)
    requires Get(v, env, params).Served?
    ensures var r := Get(v, env, params);
      var validated := ValidateDrilldowns(env.schema, v.model, v.drilldowns).paths;
      && AllDeclaredValid(env.schema, v.model, v.drilldowns)
      && (forall i :: 0 <= i < |r.plan.selects| ==> r.plan.selects[i] in validated)
      && (forall i :: 0 <= i < |r.plan.prefetches| ==> r.plan.prefetches[i] in validated)
      && NestedAllowed(r.shape, "", validated)
      && Within(r.shape, CreateFieldsMap(ScopeOf(env.schema, v, validated), v.model, FieldsParam(Lookup(params, "fields"))).tree)
      && Requested(ScopeOf(env.schema, v, validated), v.model, r.shape, set d | d in FieldsParam(Lookup(params, "fields")), "")
  {
    ServedUnfold(v, env, params);
    ValidateDrilldownsSpec(env.schema, v.model, v.drilldowns);
    var validated := ValidateDrilldowns(env.schema, v.model, v.drilldowns).paths;
    var sc := ScopeOf(env.schema, v, validated);
    var fm := CreateFieldsMap(sc, v.model, FieldsParam(Lookup(params, "fields")));
    var fk := SetFilterKwargs(env.schema, validated, v.picky, v.model, Prefilter(params, IgnoreFields(v.ignore, v.hidePaths)));
    QueriedServed(v, env, params, fm, fk, env.filter(fk.kwargs).rows);
    var t := fm.tree;
    PruneWithin(env.schema, env.defaults, v.model, t);
    FieldsMapBounded(sc, v.model, FieldsParam(Lookup(params, "fields")));
    PruneRequested(sc, env.defaults, v.model, t, set d | d in FieldsParam(Lookup(params, "fields")), "");
    PruneAllowed(sc, env.defaults, v.model, t, "");
  }

  /**
   The filters of a served response: with lookup-safe field names, a
   keyword is in the plan exactly when a parameter that is not ignored has
   an allowed dotted path compiling to it; a picky view serves only when
   every such parameter is allowed, and any other view warns exactly when
   one is not.
   */
  lemma ServedFilters<R>(v: ViewConfig, env: Env<R>, params: seq<(string, string)>)
    requires WellFormed(env.schema) && LookupSafe(env.schema)
    requires Get(v, env, params).Served?
    ensures var r := Get(v, env, params);
      var validated := ValidateDrilldowns(env.schema, v.model, v.drilldowns).paths;
      var ignored := IgnoreFields(v.ignore, v.hidePaths);
      && (forall k :: k in r.plan.kwargs <==> Requests(env.schema, validated, v.model, params, ignored, k))
      && (v.picky ==> !SomeRefused(env.schema, validated, v.model, params, ignored))
      && (!v.picky ==> (r.warning.Some? <==> SomeRefused(env.schema, validated, v.model, params, ignored)))
  {
    ServedUnfold(v, env, params);
    var validated := ValidateDrilldowns(env.schema, v.model, v.drilldowns).paths;
    var fm := CreateFieldsMap(ScopeOf(env.schema, v, validated), v.model, FieldsParam(Lookup(params, "fields")));
    var fk := SetFilterKwargs(env.schema, validated, v.picky, v.model, Prefilter(params, IgnoreFields(v.ignore, v.hidePaths)));
    QueriedServed(v, env, params, fm, fk, env.filter(fk.kwargs).rows);
    RequestKeywords(env.schema, validated, v.picky, v.model, params, IgnoreFields(v.ignore, v.hidePaths));
    RequestMessages(env.schema, validated, v.picky, v.model, params, IgnoreFields(v.ignore, v.hidePaths));
  }

  /** Past the drilldowns and the fields map, the response is decided by the filter keywords. */
  lemma ReachesFilters<R>(v: ViewConfig, env: Env<R>, params: seq<(string, string)>)
    requires WellFormed(env.schema)
    requires env.hasBaseQuery && AllDeclaredValid(env.schema, v.model, v.drilldowns)
    requires var validated := ValidateDrilldowns(env.schema, v.model, v.drilldowns).paths;
      CreateFieldsMap(ScopeOf(env.schema, v, validated), v.model, FieldsParam(Lookup(params, "fields"))).acc.error.None?
    ensures var validated := ValidateDrilldowns(env.schema, v.model, v.drilldowns).paths;
      var fm := CreateFieldsMap(ScopeOf(env.schema, v, validated), v.model, FieldsParam(Lookup(params, "fields")));
      var filters := Prefilter(params, IgnoreFields(v.ignore, v.hidePaths));
      Get(v, env, params) == Filtered(v, env, params, fm, SetFilterKwargs(env.schema, validated, v.picky, v.model, filters))
  {
    ValidateDrilldownsSpec(env.schema, v.model, v.drilldowns);
    var w := ValidateDrilldowns(env.schema, v.model, v.drilldowns);
    assert Get(v, env, params) == Validated(v, env, params, w);
  }

  /**
   A picky view answers a filter it cannot compile with a 400 and no
   warning, once the drilldowns and the fields map have passed.
   */
  lemma PickyRefuses<R>(v: ViewConfig, env: Env<R>, params: seq<(string, string)>)
    requires WellFormed(env.schema) && LookupSafe(env.schema)
    requires env.hasBaseQuery && AllDeclaredValid(env.schema, v.model, v.drilldowns)
    requires var validated := ValidateDrilldowns(env.schema, v.model, v.drilldowns).paths;
      CreateFieldsMap(ScopeOf(env.schema, v, validated), v.model, FieldsParam(Lookup(params, "fields"))).acc.error.None?
    requires v.picky
    ensures var validated := ValidateDrilldowns(env.schema, v.model, v.drilldowns).paths;
      var r := Get(v, env, params);
      SomeRefused(env.schema, validated, v.model, params, IgnoreFields(v.ignore, v.hidePaths)) ==>
        r.Failed? && r.warning.None?
  {
    ReachesFilters(v, env, params);
    var validated := ValidateDrilldowns(env.schema, v.model, v.drilldowns).paths;
    RequestMessages(env.schema, validated, v.picky, v.model, params, IgnoreFields(v.ignore, v.hidePaths));
  }

  /** Once the filter keywords are set, a 400 comes only from the query engine or from `order_by`. */
  lemma FilteredFailures<R>(v: ViewConfig, env: Env<R>, params: seq<(string, string)>, fm: Step, fk: Filters)
    requires fk.error.None?
    ensures var r := Filtered(v, env, params, fm, fk);
      r.Failed? ==> r.message == BadFilterParameter || r.message == BadFilterValueMessage || r.message == BadOrderBy
  {
  }

  /**
   Past the filter keywords, a 500 comes exactly from an exception the
   filter raises untrapped, from Django refusing the `order_by` keys when
   the ordering is added, or from a negative offset or window end.
   */
  lemma FilteredUnhandled<R>(v: ViewConfig, env: Env<R>, params: seq<(string, string)>, fm: Step, fk: Filters)
    requires fk.error.None?
    ensures var r := Filtered(v, env, params, fm, fk);
      var (orderBy, offset, limit) := Paging(v, env, params);
      var q := env.filter(fk.kwargs);
      r.Unhandled? <==>
        || q.Raised?
        || (q.Rows? && ((orderBy != [] && env.orderRaises(orderBy)) || offset < 0 || offset + limit < 0))
  {
    var (orderBy, offset, limit) := Paging(v, env, params);
    match env.filter(fk.kwargs)
    case Rows(rows) =>
      PageSpec(rows, offset, limit);
      var sorted := if orderBy == [] then Some(rows) else env.order(rows, orderBy);
      if sorted.Some? {
        PageSpec(sorted.value, offset, limit);
      }
    case BadFilterField =>
    case BadFilterValue =>
    case Raised =>
  }

  /**
   A view that is not picky never fails on the filter parameters
   themselves: past the fields map, only the query engine's own errors and
   a bad `order_by` give a 400.
   */
  lemma LenientNeverRefuses<R>(v: ViewConfig, env: Env<R>, params: seq<(string, string)>)
    requires WellFormed(env.schema)
    requires env.hasBaseQuery && AllDeclaredValid(env.schema, v.model, v.drilldowns)
    requires var validated := ValidateDrilldowns(env.schema, v.model, v.drilldowns).paths;
      CreateFieldsMap(ScopeOf(env.schema, v, validated), v.model, FieldsParam(Lookup(params, "fields"))).acc.error.None?
    requires !v.picky
    ensures var r := Get(v, env, params);
      r.Failed? ==> r.message == BadFilterParameter || r.message == BadFilterValueMessage || r.message == BadOrderBy
  {
    ReachesFilters(v, env, params);
    var validated := ValidateDrilldowns(env.schema, v.model, v.drilldowns).paths;
    var ignored := IgnoreFields(v.ignore, v.hidePaths);
    var fm := CreateFieldsMap(ScopeOf(env.schema, v, validated), v.model, FieldsParam(Lookup(params, "fields")));
    var filters := Prefilter(params, ignored);
    var fk := SetFilterKwargs(env.schema, validated, v.picky, v.model, filters);
    GatherMessages(v.picky, filters, CompileAll(env.schema, validated, v.model, filters));
    FilteredFailures(v, env, params, fm, fk);
  }
}
