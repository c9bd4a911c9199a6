# django-rest-framework-drilldown, modelled in Dafny

`DrillDownAPIView` turns one GET request into a validated query plan and a
matching nested serializer. The request's `fields`, filter, `order_by`,
`limit` and `offset` parameters use a small dotted path language over the
Django models (`client.profile.first_name`, `invoice.total__lt=100`). The
view checks against its declared `drilldowns` the relations that a `fields`
entry descends into (and a bare ManyToMany field) and the inner hops of a
filter's dotted path. It does not check `order_by`, the part of a filter
name after its first `__`, or the ForeignKey, OneToOne and RelatedObject
fields an `ALL` expands. It records each joined relation for
`select_related` (ForeignKey, OneToOne, RelatedObject) or `prefetch_related`
(ManyToMany). It then prunes the serializer down to the requested fields.

This project models that compiler as pure functions over an abstract schema.
The schema is a table from entity name to its fields in order, each field
with its kind: scalar, ForeignKey, OneToOne, ManyToMany or RelatedObject.
The model proves what each stage guarantees.

Modules, in dependency order:

- `Wrappers`: `Option`.
- `Strings`: Python's `str.split(sep)`, `split(sep, 1)`, `strip(chars)`,
  `strip()` and `replace` on `seq<char>`, with the facts the proofs need.
- `Lists`: append-if-absent, first-seen deduplication, flat maps.
- `Schema`: `get_all_field_names`, `get_field_type`, `get_model` and
  `is_field_in`.
- `Paths`: the `(current + '__' + name).strip('__')` accumulation that all
  three compilers share.
- `Drilldowns`: `_validate_drilldowns`.
- `FieldsMap`: `_create_fields_map`.
- `Filters`: the ignore list, the filter pre-selection in `get`, and
  `_set_filter_kwargs`.
- `Pagination`: `order_by`, the throttled limit, the page slice and
  `X-Total-Count`.
- `Projection`: the pruning that `DrilldownSerializerFactory` does.
- `View`: `get`, stage by stage, with the query engine as a parameter.

Each stage has a reference definition next to the code-shaped one, and a
lemma connecting the two for all inputs:

- Drilldowns: a declared path is valid when it is a chain of relations
  (`RelationChain`). The result is the deduplicated list of its prefixes.
- Filters: a dotted filter path is allowed when every hop is a field and
  every inner hop is a validated relation (`AllowedFilter`).
- Fields map: a request is accepted when its dotted path is read off the
  schema and the drilldowns as `RequestOk` says, and the compiler fails
  exactly when some request is not. A successful map holds every request at
  every depth (`Holds`), and holds nothing else: every key is a request's
  head, a name an `ALL` takes, or the default `id` under a bare ManyToMany
  field (`Bounded`). The compiler keeps a tree-shape invariant
  (`TreeOk`), and the recorded joins only grow, by validated paths
  (`Grows`).
- Serializer: it never shows more than the fields map (`Within`), and so
  never more than the requests ask for (`Requested`). It nests only along
  drilldowns (`NestedAllowed`).

Where the view's documented intent and its code differ, the model follows
the code:

- The view is not picky by default. A filter whose path is unknown or out
  of range then sets `X-Query_Warning` and is dropped; it is not a 400.
- A hidden field (`hide`) is kept out of the `ALL` expansion. A `fields`
  entry that names it explicitly still gets it. The ignore list holds the
  hidden path only in its dotted spelling, so the filter
  `salesperson.commission_pct=8` is ignored but
  `salesperson__commission_pct=8` is not: its stem is `salesperson`, and it
  compiles to the keyword `salesperson__commission_pct`.
- The part of a filter name after its first `__` is passed to the query as
  the operator without any check, so it can name a relation outside the
  drilldowns (`salesperson__profile=3`).
- `ALL` checks only ManyToMany fields against the drilldowns. ForeignKey,
  OneToOne and RelatedObject fields are always expanded, as bare ids.
- A RelatedObject field is the reverse side of a ForeignKey, OneToOne or
  ManyToMany field, so it can hold many rows. A reverse drilldown given
  sub-fields (`fields=test_invoice.total` on a client view) is still sent
  to `select_related`, never to `prefetch_related`. Asked for bare, it is a
  plain field and is not checked against the drilldowns.
- `select_relateds` and `prefetch_relateds` get one entry per request, so a
  path requested twice is recorded twice.
- The operator of a filter is only the second `__` component of the name.
  `a__b__c` filters `a` with `__b`. A final `.` in a filter path is ignored.
- `X-Total-Count` is promised as the match count before the limit and the
  offset. The count query is taken before the ordering, but without an
  offset and with a short page the header is the page length. Ordering
  across a to-many relation repeats a row once per related row. So with
  `order_by=items.price`, 5 matching invoices can give 12 rows, and the
  header says 12 without a limit and 5 with `limit=3`.
- A zero `THROTTLE` turns the limit off; a zero `limit` does not (it means
  2000).
- `offset` and `limit` may be negative. A negative slice bound is an
  exception the view does not trap (`Unhandled`). A negative limit whose
  window still ends at or after zero gives an empty page.

## Model

| member | source | states |
|---|---|---|
| Schema.KindIn | rest_framework_drilldown/views.py:429-432 | no kind exactly when no field has the name; otherwise the kind belongs to a field with that name |
| Schema.FieldType | rest_framework_drilldown/views.py:424-426 | a field type exists exactly for the names `is_field_in` accepts |
| Paths.ExtendJoin | rest_framework_drilldown/views.py:190 | for clean names, `(current + '__' + name).strip('__')` is the `__` join of the trail plus the new name |
| Lists.DedupFirstSeen | rest_framework_drilldown/views.py:193-194 | appending only unseen paths keeps each value exactly once, in the order it first appears |
| Drilldowns.ValidateMeSpec | rest_framework_drilldown/views.py:178-197 | one declared path fails exactly when it is not a chain of relations (or an earlier path failed); otherwise it appends its new prefixes, in order |
| Drilldowns.ValidateEachSpec | rest_framework_drilldown/views.py:199-200 | the loop fails exactly when some declared path is invalid; otherwise it appends the new prefixes of all declared paths |
| Drilldowns.ValidateDrilldownsSpec | rest_framework_drilldown/views.py:174-203 | no error exactly when every declared path is a chain of relations; then the result is the declared prefixes, duplicate-free and in first-seen order; on an error the result is empty |
| Drilldowns.DrilldownClosure | rest_framework_drilldown/views.py:190-197 | for valid paths with clean segments, the result holds exactly the `__` prefixes of the declared paths, so every prefix of an allowed path is allowed |
| Drilldowns.DrilldownErrorPrefix | rest_framework_drilldown/views.py:175-189 | any error left starts with `Error in drilldowns`, the marker `get` tests |
| FieldsMap.FieldsParam | rest_framework_drilldown/views.py:89-90 | an absent or empty `fields` parameter gives no requests; otherwise the comma pieces, which contain no comma and join back to the parameter |
| FieldsMap.AddGrows | rest_framework_drilldown/views.py:210-260 | one request only appends to `select_relateds` and `prefetch_relateds`, only paths among the validated drilldowns, and never clears an error |
| FieldsMap.AddKeys | rest_framework_drilldown/views.py:210-260 | one request adds to the tree exactly its own field, or for `ALL` every admitted field name, and removes none |
| FieldsMap.AddTreeOk | rest_framework_drilldown/views.py:210-260 | one request keeps the tree's shape: keys are fields, and non-empty subtrees are relations along validated drilldowns |
| FieldsMap.AddAllKeys | rest_framework_drilldown/views.py:218-230 | the `ALL` loop adds exactly the names that are not hidden and are not ManyToMany fields outside the drilldowns |
| FieldsMap.AddEach | rest_framework_drilldown/views.py:262-263 | the loop over the requests keeps the invariants and adds exactly the keys the requests name |
| FieldsMap.CreateFieldsMap | rest_framework_drilldown/views.py:205-267 | on an error the map is `{}`; otherwise its top keys are exactly the requested ones; the map always has the guaranteed shape, and every recorded join is a validated drilldown |
| FieldsMap.AddError | rest_framework_drilldown/views.py:210-260 | one request leaves the error unset exactly when none was set before and the request is accepted: its head is `ALL` or a field, every ManyToMany field or relation given sub-fields along it is among the drilldowns, sub-fields appear only under relations, and every default `id` sub-request finds an `id` field |
| FieldsMap.FieldsMapFails | rest_framework_drilldown/views.py:205-267 | the fields map fails exactly when some request is refused, at whatever depth of its dotted path; a refusal does not depend on the other requests |
| FieldsMap.AddIncludes | rest_framework_drilldown/views.py:210-260 | a request never removes a key from the map, at any depth |
| FieldsMap.AddHolds | rest_framework_drilldown/views.py:210-260 | a request that sets no error leaves its head in the map (for `ALL`, every name the expansion takes), `id` under a bare ManyToMany field, and the rest of a dotted request under its relation, held in the same sense |
| FieldsMap.FieldsMapHolds | rest_framework_drilldown/views.py:205-267 | a fields map built without an error holds every request at every depth, e.g. `first_name` under `profile` under `client` for `client.profile.first_name` |
| FieldsMap.AddBounded | rest_framework_drilldown/views.py:210-260 | a request adds only what it asks for: its head (for `ALL`, the names the expansion takes), the default `id` under a bare ManyToMany field, and under a relation only what the rest of the request asks for there |
| FieldsMap.FieldsMapBounded | rest_framework_drilldown/views.py:205-267 | the fields map holds nothing beyond the requests at any depth, e.g. with `fields=client.profile` the only key under `client` is `profile` |
| FieldsMap.BareField | rest_framework_drilldown/views.py:231-240 | a bare field that is not ManyToMany becomes `{field: {}}` and records no join |
| FieldsMap.BareManyToMany | rest_framework_drilldown/views.py:240-257 | a bare ManyToMany field within the drilldowns becomes `{field: {'id': {}}}` and is prefetched |
| FieldsMap.UnknownField | rest_framework_drilldown/views.py:214-216 | for a single request at the top level, a name that is neither a field nor `ALL` gives `Error in fields: "…" is not a valid field` and an empty map |
| FieldsMap.OutOfRange | rest_framework_drilldown/views.py:240-251 | for a single request at the top level, a ManyToMany field, or a relation with sub-fields, outside the drilldowns gives `… is not valid` and an empty map |
| FieldsMap.SubfieldOfScalar | rest_framework_drilldown/views.py:258-260 | for a single request at the top level, a sub-field of a scalar field gives `… not valid field` and an empty map |
| FieldsMap.HideKeyTop | rest_framework_drilldown/views.py:220-222 | at the top level a field is hidden from `ALL` by its own name |
| FieldsMap.AllAtTop | rest_framework_drilldown/views.py:218-230 | a successful `fields=ALL` returns exactly the fields that are not hidden and are not ManyToMany outside the drilldowns |
| FieldsMap.RelatedsClassified | rest_framework_drilldown/views.py:243-248 | every `select_related` path names a ForeignKey, OneToOne or RelatedObject field, and every `prefetch_related` path a ManyToMany field |
| Filters.HiddenPathNotIgnored | rest_framework_drilldown/views.py:62-97 | a filter spelled as a hidden path with `__` is not ignored, because the ignore list holds only the dotted spelling and the stem is the first field alone |
| Filters.Prefilter | rest_framework_drilldown/views.py:94-97 | the filters are exactly the parameters whose text before the first `__` is not ignored, and there are no more of them than parameters |
| Filters.StemOperation | rest_framework_drilldown/views.py:297-302 | a name with at most one `__` is its path followed by its operator; a name without `__` has no operator |
| Filters.DoFilterCompiles | rest_framework_drilldown/views.py:304-344 | `do_filter` compiles a dotted path exactly when every hop is a field and every inner hop is a relation among the drilldowns; the result is then the segments joined with `__` |
| Filters.RawValue | rest_framework_drilldown/views.py:351-355 | an `__in` value is split on commas, and the pieces join back to it; any other value is kept as text |
| Filters.AssignSpec | rest_framework_drilldown/views.py:353-355 | assigning into `filter_kwargs` keeps a key exactly when some parameter gives it, with the value of the last one |
| Filters.CoerceSpec | rest_framework_drilldown/views.py:357-361 | exactly `true`/`True` and `false`/`False` become booleans, every other value is unchanged, and coercing twice is coercing once |
| Filters.SetFilterKwargs | rest_framework_drilldown/views.py:293-363 | the result is the collected dictionary with every value coerced, so no boolean spelling survives as text, and the messages are unchanged |
| Filters.FilterKwargsSpec | rest_framework_drilldown/views.py:293-363 | a keyword is present exactly when some filter has an allowed path compiling to it, and it holds the coerced value of the last such filter |
| Filters.FilterMessagesSpec | rest_framework_drilldown/views.py:318-338 | a filter whose path is not allowed sets the error when the view is picky and the warning otherwise, and nothing else sets either |
| Filters.RequestKeywords | rest_framework_drilldown/views.py:93-114 | from the raw parameters: the keywords are exactly those of the parameters that are not ignored and have allowed paths |
| Filters.RequestMessages | rest_framework_drilldown/views.py:93-116 | from the raw parameters: a refused parameter that is not ignored sets the error when the view is picky and the warning otherwise |
| Pagination.EffectiveLimit | rest_framework_drilldown/views.py:145 | the limit is at most the throttle and at most the requested limit (2000 when that is zero), and is one of the two |
| Pagination.LimitZeroIff | rest_framework_drilldown/views.py:145 | the effective limit is zero exactly when `THROTTLE` is zero and the requested limit is not negative; with no `THROTTLE` and a limit that is not negative it lies in 1..2000 |
| Pagination.Slice | rest_framework_drilldown/views.py:147-151 | a query set slice fails exactly on a negative bound, and is never longer than the rows |
| Pagination.PageSpec | rest_framework_drilldown/views.py:146-151 | the page exists exactly when the offset and the window's end are not negative; with a limit that is not negative it is the rows from the offset, at most `limit` of them when the limit is not zero and all of them otherwise; a negative limit whose window still ends at or after zero gives an empty page |
| Pagination.TotalCountExact | rest_framework_drilldown/views.py:162-166 | for a page cut from the very rows that are counted, `X-Total-Count` equals their number, although the count query only runs on an offset or a full page |
| Pagination.ShortPageIsAll | rest_framework_drilldown/views.py:142-166 | when the count shortcut takes the page length (no offset, and a page that is empty or shorter than the limit), the page is all of the rows |
| Pagination.OrderBy | rest_framework_drilldown/views.py:136-140 | no ordering exactly when `order_by` is absent or empty; otherwise comma pieces that contain no `.` and join back to the parameter with `.` spelled `__` |
| Projection.PruneWithin | rest_framework_drilldown/views.py:384-401 | at every depth the serializer shows no field the fields map did not request, apart from the default `id` |
| Projection.PruneAllowed | rest_framework_drilldown/views.py:393-400 | for a map the compiler accepts, every nested serializer sits at a validated drilldown path |
| Projection.PruneRequested | rest_framework_drilldown/views.py:384-401 | pruning a fields map that holds nothing beyond the requests shows, at every depth, only fields the requests ask for, or the `id` alone |
| Projection.SerializerSafe | rest_framework_drilldown/views.py:154 | the serializer for a request shows nothing beyond the fields map and nothing beyond what the `fields` entries ask for, at any depth, and nests only along validated drilldowns |
| View.Lookup | rest_framework_drilldown/views.py:89 | a parameter read gives nothing exactly when no parameter has that name, and otherwise the last value given for that name |
| View.GetFailsEarly | rest_framework_drilldown/views.py:99-106 | no base query gives the `get_base_query()` error; then an invalid declared drilldown gives a 400 whose message starts with `Error in drilldowns`, with no warning |
| View.ServedUnfold | rest_framework_drilldown/views.py:99-133 | a served response passed every check: base query, drilldowns, fields and filters without error, and the query returned rows |
| View.ServedCounts | rest_framework_drilldown/views.py:133-166 | in a served response the total is the number of rows the filters match when there is an offset or the page is full, and otherwise the page length, the page then holding all the ordered rows; the page is no longer than a positive limit, and the offset and the window's end are not negative |
| View.ServedCountsExact | rest_framework_drilldown/views.py:133-166 | without `order_by`, or with an ordering that keeps the number of rows, the total is the number of rows the filters match, whatever the limit and the offset |
| View.ServedShape | rest_framework_drilldown/views.py:103-154 | a served response has valid declared drilldowns, joins only validated drilldowns, nests serializers only along them, and shows nothing beyond the fields map or the `fields` parameter |
| View.ServedFilters | rest_framework_drilldown/views.py:113-126 | in a served response the filter keywords are exactly those of the allowed parameters that are not ignored; a picky view served no refused parameter, and any other view warns exactly when there was one |
| View.ReachesFilters | rest_framework_drilldown/views.py:103-114 | once the drilldowns and the fields map pass, the response is decided by the filter stage |
| View.PickyRefuses | rest_framework_drilldown/views.py:113-116 | a picky view answers a refused filter parameter with a 400 and no warning |
| View.FilteredFailures | rest_framework_drilldown/views.py:125-160 | after the filter keywords are set, a 400 comes only from a bad filter field, a bad filter value or a bad `order_by` |
| View.FilteredUnhandled | rest_framework_drilldown/views.py:125-151 | past the filter keywords, the view answers with an untrapped exception exactly when the filter raises something other than `FieldError` or `ValueError`, when Django refuses the `order_by` keys as the ordering is added, or when the offset or the window's end is negative |
| View.LenientNeverRefuses | rest_framework_drilldown/views.py:113-160 | a view that is not picky never fails on a filter parameter's path; past the fields map only the query engine and `order_by` give a 400 |

## Left out

- HTTP itself: `Response`, the status codes and the header names. The model's `Response` holds the message, the warning, the page, the shape and the total that the headers carry.
- The `settings.DEBUG` query counter (lines 72-73 and 168-169). It only adds a header.
- The Django ORM. `qs.filter(**kwargs)` with its `FieldError` and `ValueError` traps and its other exceptions, the check `qs.order_by` makes of its arguments, ordering and counting are parameters of `View.Env`. Which `order_by` keys Django refuses at once (an untrapped exception) and which only when the page is read (the trapped `FieldError`) is Django's, not the view's. The effect of `select_related` and `prefetch_related` is not modelled; the plan records their arguments.
- Rendering row values (`serializer.data`). The model gives the serializer's shape and the rows of the page.
- The fields a `ModelSerializer` shows by default are a parameter (`Projection.Defaults`). Django computes them.
- `int_or_none` (lines 435-441) wraps Python's `int`, which is a parameter (`Env.parseInt`).
- `_set_relateds` (lines 269-291): `get` never calls it.
- Dictionary order. Request parameters are a sequence of name and value pairs in the order the query dictionary yields them. When a name repeats, every occurrence is filtered in turn and the last value wins. Python's iteration order over `filters` and `fields_map` is not otherwise modelled.
- Field trees are maps, so the order of keys in a fields map is not modelled.
- `FieldsMap.Add`, `FieldsMap.AddAll` and `FieldsMap.CreateFieldsMap` require a well-formed schema, and so do `View.Get` and the lemmas about it. That means no field called `ALL` and no ManyToMany field called `id`; on those the source recurses without end. It also means identifier field names, which the source does not need: the model's termination measure takes each name an `ALL` expansion adds to be one path segment. Schemas with other field names are not modelled.
- Filters.DoFilterCompiles assumes a schema whose field names have no `__` and no underscore at either end (`LookupSafe`), so that the `__` join can be read back. Django refuses `__` and a trailing underscore in field names, but allows a leading underscore. On such a field, `_order` say, `strip('__')` drops the underscore and the filter `_order=1` compiles to the keyword `order`. That outcome is not stated.
- Filters.FilterKwargsSpec assumes `LookupSafe`, as `Filters.DoFilterCompiles` does.
- Filters.FilterMessagesSpec assumes `LookupSafe`, as `Filters.DoFilterCompiles` does.
- Filters.RequestKeywords and Filters.RequestMessages assume `LookupSafe`, for the same reason.
- FieldsMap.RelatedsClassified assumes `LookupSafe`, so that a recorded `__` path can be read back as the relations it came from.
- View.ServedFilters and View.PickyRefuses assume `LookupSafe`, for the filter lemmas they use.
- Drilldowns.DrilldownClosure assumes the declared paths' segments carry no surrounding whitespace or underscores. Without that, the recorded prefix is the stripped spelling, which `ValidateDrilldownsSpec` states.
- FieldsMap.AllAtTop states the `ALL` expansion at the top level only, where the hide key is the field's own name. `FieldsMap.AddAllKeys` states it at any depth in terms of the dotted hide key.
- View.ServedCountsExact assumes no `order_by`, or an ordering that keeps the number of rows (`OrderKeepsCount`). Django's `order_by` across a to-many relation repeats rows, and `View.ServedCounts` states the total for that case too.
