/**
 `DrillDownAPIView._set_filter_kwargs` and the ignore-list pre-filter in
 `get`: every query parameter that is not ignored is read as
 `x.y.z__op=value`, its dotted path is checked hop by hop against the
 schema and the validated drilldowns and rewritten to `x__y__z__op`; a
 path that fails is an error when the view is picky and otherwise a
 warning, and is left out.
 */
module Filters {
  import opened Wrappers
  import opened Strings
  import opened Schema
  import opened Paths
  import Lists

  /** `hide_fields`: the hidden paths in dotted spelling. */
  function HideFields(hidePaths: seq<string>): (r: seq<string>)
    ensures |r| == |hidePaths| && forall i :: 0 <= i < |hidePaths| ==> r[i] == Dotted(hidePaths[i])
  {
    seq(|hidePaths|, i requires 0 <= i < |hidePaths| => Dotted(hidePaths[i]))
  }

  /** The parameters that are never filters: `format`, paging, ordering, `fields`. */
  const ReservedParams: set<string> := {"fields", "limit", "offset", "format", "order_by"}

  /** `ignore_fields`: the reserved parameters, the view's ignore list and the dotted hidePaths list. */
  function IgnoreFields(ignore: seq<string>, hidePaths: seq<string>): (r: set<string>)
    ensures forall x :: x in r <==> x in ReservedParams || x in ignore || x in HideFields(hidePaths)
  {
    ReservedParams + (set x | x in ignore) + (set x | x in HideFields(hidePaths))
  }

  /** The text before the first `__` of a parameter name, the part the ignore list is checked against. */
  function Stem(key: string): string
  {
    Split(key, "__")[0]
  }

  /**
   The loop at the top of `get` that collects the filters: the parameters,
   in order, whose stem is not ignored.
   */
  function Prefilter(params: seq<(string, string)>, ignored: set<string>): (r: seq<(string, string)>)
    ensures forall kv :: kv in r <==> kv in params && Stem(kv.0) !in ignored
    ensures |r| <= |params|
  {
    if |params| == 0 then []
    else
      var rest := Prefilter(params[1..], ignored);
      assert forall kv :: kv in params <==> kv == params[0] || kv in params[1..];
      if Stem(params[0].0) in ignored then rest else [params[0]] + rest
  }

  /**
   The ignore list holds a hidden path only in its dotted spelling, so a
   filter spelled as the hidden path itself (`salesperson__commission_pct`)
   is not ignored: its stem is the first field alone (`salesperson`).
   */
  lemma HiddenPathNotIgnored(ignore: seq<string>, hidePaths: seq<string>, a: string, b: string, v: string)
    requires a + "__" + b in hidePaths
    requires |a| > 0 && a[|a| - 1] != '_' && Absent(a, "__")
    requires a !in ReservedParams && a !in ignore && a !in HideFields(hidePaths)
    ensures Stem(a + "__" + b) == a
    ensures (a + "__" + b, v) in Prefilter([(a + "__" + b, v)], IgnoreFields(ignore, hidePaths))
  {
    SplitAfterPiece(a, b);
  }

  /** Why a hop of a filter path was refused. */
  datatype Refusal = NotAField(fieldname: string) | NotInDrilldowns | NoChildren

  /** The outcome of `do_filter`: the `__` path, or the path reached when a hop was refused. */
  datatype Hop = Compiled(key: string) | Refused(path: string, why: Refusal)

  /**
   `do_filter`: the first dotted segment must be a field of `model`; when
   more follows, the path so far must be a validated drilldown and the
   field a relation, and the rest is compiled in the related entity.
   */
  function DoFilter(s: Schema, dds: seq<string>, dot: string, done: string, model: string): Hop
    decreases |dot|
  {
    var parts := SplitOnce(dot, ".");
    var fieldname := parts[0];
    var path := Extend(done, fieldname);
    var leftover := if |parts| > 1 then parts[1] else "";
    if !IsFieldIn(s, model, fieldname) then Refused(path, NotAField(fieldname))
    else if leftover == "" then Compiled(path)
    else if path !in dds then Refused(path, NotInDrilldowns)
    else
      match RelatedModel(s, model, fieldname)
      case None => Refused(path, NoChildren)
      case Some(next) => DoFilter(s, dds, leftover, path, next)
  }

  // Reference definition: which dotted paths compile, stated on the whole path.

  /** Drops one empty last piece, when there are several pieces. */
  function DropFinalEmpty(parts: seq<string>): seq<string>
  {
    if |parts| > 1 && parts[|parts| - 1] == "" then parts[..|parts| - 1] else parts
  }

  /**
   The segments of a dotted filter path: its `.`-pieces, except that one
   empty piece after a final dot is dropped, as `do_filter` stops at an
   empty remainder.
   */
  function FilterSegments(dot: string): (segs: seq<string>)
    ensures |segs| >= 1
  {
    DropFinalEmpty(Split(dot, "."))
  }

  /** The first `__`-path trail of `k + 1` segments. */
  function Through(trail: seq<string>, segs: seq<string>, k: int): seq<string>
    requires 0 <= k < |segs|
  {
    trail + segs[..k + 1]
  }

  /**
   Walking `segs` on from `trail` is allowed: every segment is a field of the
   entity reached so far, and every segment but the last is a relation
   whose `__` path is a validated drilldown.
   */
  predicate AllowedFrom(s: Schema, dds: seq<string>, root: string, trail: seq<string>, segs: seq<string>)
  {
    && (forall k :: 0 <= k < |segs| ==> KindAlong(s, root, Through(trail, segs, k)).Some?)
    && (forall k :: 0 <= k < |segs| - 1 ==>
          Join(Through(trail, segs, k), "__") in dds && Reaches(s, root, Through(trail, segs, k)).Some?)
  }

  /** A dotted filter path compiles when walking all its segments from the root is allowed. */
  predicate AllowedFilter(s: Schema, dds: seq<string>, root: string, dot: string)
  {
    AllowedFrom(s, dds, root, [], FilterSegments(dot))
  }

  lemma DropFinalEmptyCons(x: string, rest: seq<string>)
    requires |rest| >= 1 && rest != [""]
    ensures DropFinalEmpty([x] + rest) == [x] + DropFinalEmpty(rest)
  {
    var all := [x] + rest;
    if |rest| > 1 && rest[|rest| - 1] == "" {
      assert all[..|all| - 1] == [x] + rest[..|rest| - 1];
    }
  }

  /** A split has the single empty piece exactly when the text is empty. */
  lemma SplitEmpty(t: string)
    ensures Split(t, ".") == [""] <==> t == ""
  {
  }

  /** How the segments of a dotted path relate to its first `.`-split. */
  lemma FilterSegmentsUnfold(dot: string)
    ensures var parts := SplitOnce(dot, ".");
      var segs := FilterSegments(dot);
      && segs[0] == parts[0]
      && (|parts| == 1 || parts[1] == "" ==> segs == [parts[0]])
      && (|parts| == 2 && parts[1] != "" ==> segs == [parts[0]] + FilterSegments(parts[1]))
  {
    var parts := SplitOnce(dot, ".");
    var all := Split(dot, ".");
    if |parts| == 2 {
      var rest := Split(parts[1], ".");
      assert all == [all[0]] + rest;
      SplitEmpty(parts[1]);
      if parts[1] != "" {
        DropFinalEmptyCons(all[0], rest);
      }
    }
  }

  /** The conditions for one segment alone. */
  lemma AllowedSingle(s: Schema, dds: seq<string>, root: string, trail: seq<string>, f: string)
    ensures AllowedFrom(s, dds, root, trail, [f]) <==> KindAlong(s, root, trail + [f]).Some?
  {
    assert Through(trail, [f], 0) == trail + [f];
  }

  /** Segment `k + 1` after a first segment `f` is segment `k` after the trail extended by `f`. */
  lemma ThroughCons(trail: seq<string>, f: string, rest: seq<string>, k: int)
    requires 0 <= k < |rest|
    ensures Through(trail, [f] + rest, k + 1) == Through(trail + [f], rest, k)
  {
    assert ([f] + rest)[..k + 2] == [f] + rest[..k + 1];
  }

  /**
   A property of the first `n + 1` prefixes after a first segment `f` is the
   property of `trail + [f]` and of the first `n` prefixes after it.
   */
  lemma ThroughShift(trail: seq<string>, f: string, rest: seq<string>, n: nat, q: seq<string> -> bool)
    requires n <= |rest|
    ensures (forall k :: 0 <= k < n + 1 ==> q(Through(trail, [f] + rest, k))) <==>
      q(trail + [f]) && forall k :: 0 <= k < n ==> q(Through(trail + [f], rest, k))
  {
    var segs := [f] + rest;
    assert Through(trail, segs, 0) == trail + [f];
    if forall k :: 0 <= k < n + 1 ==> q(Through(trail, segs, k)) {
      forall k | 0 <= k < n
        ensures q(Through(trail + [f], rest, k))
      {
        ThroughCons(trail, f, rest, k);
        assert q(Through(trail, segs, k + 1));
      }
    }
    if q(trail + [f]) && forall k :: 0 <= k < n ==> q(Through(trail + [f], rest, k)) {
      forall k | 0 < k < n + 1
        ensures q(Through(trail, segs, k))
      {
        ThroughCons(trail, f, rest, k - 1);
      }
    }
  }

  /** The conditions for a first segment followed by more. */
  lemma AllowedCons(s: Schema, dds: seq<string>, root: string, trail: seq<string>, f: string, rest: seq<string>)
    requires |rest| > 0
    ensures AllowedFrom(s, dds, root, trail, [f] + rest) <==>
      && KindAlong(s, root, trail + [f]).Some?
      && Join(trail + [f], "__") in dds && Reaches(s, root, trail + [f]).Some?
      && AllowedFrom(s, dds, root, trail + [f], rest)
  {
    ThroughShift(trail, f, rest, |rest|, t => KindAlong(s, root, t).Some?);
    ThroughShift(trail, f, rest, |rest| - 1, t => Join(t, "__") in dds && Reaches(s, root, t).Some?);
  }

  /**
   `do_filter` from a clean trail: it compiles exactly when walking the rest
   of the dotted path is allowed, and then yields the `__` join of the trail
   and the segments.
   */
  lemma {:induction false} DoFilterFrom(s: Schema, dds: seq<string>, root: string, trail: seq<string>, model: string, dot: string)
    requires LookupSafe(s)
    requires Reaches(s, root, trail) == Some(model) && AllClean(trail) && NoSeparators(trail)
    ensures var h := DoFilter(s, dds, dot, Join(trail, "__"), model);
      var segs := FilterSegments(dot);
      && (h.Compiled? <==> AllowedFrom(s, dds, root, trail, segs))
      && (h.Compiled? ==> h.key == Join(trail + segs, "__"))
    decreases |dot|, 2
  {
    var parts := SplitOnce(dot, ".");
    var f := parts[0];
    var segs := FilterSegments(dot);
    FilterSegmentsUnfold(dot);
    ReachesSnoc(s, root, trail, f);
    if !IsFieldIn(s, model, f) {
      assert Through(trail, segs, 0) == trail + [f];
    } else if |parts| == 1 || parts[1] == "" {
      TrailStep(s, root, trail, model, f);
      AllowedSingle(s, dds, root, trail, f);
    } else {
      DoFilterInner(s, dds, root, trail, model, dot);
    }
  }

  /** A hop with more to follow, on a field that is a relation and a validated drilldown, continues in the related entity. */
  lemma DoFilterContinues(s: Schema, dds: seq<string>, dot: string, done: string, model: string)
    requires var parts := SplitOnce(dot, ".");
      && IsFieldIn(s, model, parts[0]) && |parts| == 2 && parts[1] != ""
      && Extend(done, parts[0]) in dds && RelatedModel(s, model, parts[0]).Some?
    ensures var parts := SplitOnce(dot, ".");
      DoFilter(s, dds, dot, done, model) ==
        DoFilter(s, dds, parts[1], Extend(done, parts[0]), RelatedModel(s, model, parts[0]).value)
  {
  }

  /** A hop with more to follow, on a field that is not a validated relation, is refused. */
  lemma DoFilterStops(s: Schema, dds: seq<string>, dot: string, done: string, model: string)
    requires var parts := SplitOnce(dot, ".");
      && |parts| == 2 && parts[1] != ""
      && (Extend(done, parts[0]) !in dds || RelatedModel(s, model, parts[0]).None?)
    ensures DoFilter(s, dds, dot, done, model).Refused?
  {
  }

  /** A hop with more to follow: refused unless the field is a validated relation, and otherwise the rest decides. */
  lemma {:induction false} DoFilterInner(s: Schema, dds: seq<string>, root: string, trail: seq<string>, model: string, dot: string)
    requires LookupSafe(s)
    requires Reaches(s, root, trail) == Some(model) && AllClean(trail) && NoSeparators(trail)
    requires var parts := SplitOnce(dot, ".");
      IsFieldIn(s, model, parts[0]) && |parts| == 2 && parts[1] != ""
    ensures var h := DoFilter(s, dds, dot, Join(trail, "__"), model);
      var segs := FilterSegments(dot);
      && (h.Compiled? <==> AllowedFrom(s, dds, root, trail, segs))
      && (h.Compiled? ==> h.key == Join(trail + segs, "__"))
    decreases |dot|, 1
  {
    var parts := SplitOnce(dot, ".");
    var f := parts[0];
    if Join(trail + [f], "__") in dds && RelatedModel(s, model, f).Some? {
      DoFilterOnward(s, dds, root, trail, model, dot);
    } else {
      DoFilterBlocked(s, dds, root, trail, model, dot);
    }
  }

  /** A hop with more to follow on a field that is not a validated relation: refused, and not allowed. */
  lemma DoFilterBlocked(s: Schema, dds: seq<string>, root: string, trail: seq<string>, model: string, dot: string)
    requires LookupSafe(s)
    requires Reaches(s, root, trail) == Some(model) && AllClean(trail) && NoSeparators(trail)
    requires var parts := SplitOnce(dot, ".");
      && IsFieldIn(s, model, parts[0]) && |parts| == 2 && parts[1] != ""
      && !(Join(trail + [parts[0]], "__") in dds && RelatedModel(s, model, parts[0]).Some?)
    ensures DoFilter(s, dds, dot, Join(trail, "__"), model).Refused?
    ensures !AllowedFrom(s, dds, root, trail, FilterSegments(dot))
  {
    var parts := SplitOnce(dot, ".");
    var f := parts[0];
    FilterSegmentsUnfold(dot);
    TrailStep(s, root, trail, model, f);
    AllowedCons(s, dds, root, trail, f, FilterSegments(parts[1]));
    DoFilterStops(s, dds, dot, Join(trail, "__"), model);
  }

  /** The hop into the related entity: the outcome is that of the rest of the path from the longer trail. */
  lemma {:induction false} DoFilterOnward(s: Schema, dds: seq<string>, root: string, trail: seq<string>, model: string, dot: string)
    requires LookupSafe(s)
    requires Reaches(s, root, trail) == Some(model) && AllClean(trail) && NoSeparators(trail)
    requires var parts := SplitOnce(dot, ".");
      && IsFieldIn(s, model, parts[0]) && |parts| == 2 && parts[1] != ""
      && Join(trail + [parts[0]], "__") in dds && RelatedModel(s, model, parts[0]).Some?
    ensures var h := DoFilter(s, dds, dot, Join(trail, "__"), model);
      var segs := FilterSegments(dot);
      && (h.Compiled? <==> AllowedFrom(s, dds, root, trail, segs))
      && (h.Compiled? ==> h.key == Join(trail + segs, "__"))
    decreases |dot|, 0
  {
    var parts := SplitOnce(dot, ".");
    var f := parts[0];
    var rest := FilterSegments(parts[1]);
    FilterSegmentsUnfold(dot);
    TrailStep(s, root, trail, model, f);
    AllowedCons(s, dds, root, trail, f, rest);
    var next := RelatedModel(s, model, f).value;
    DoFilterContinues(s, dds, dot, Join(trail, "__"), model);
    DoFilterFrom(s, dds, root, trail + [f], next, parts[1]);
    Lists.ConsAssociates(trail, f, rest);
  }

  /**
   `do_filter` from the root: a dotted filter path compiles exactly when it
   is allowed, and then becomes its segments joined with `__`.
   */
  lemma DoFilterCompiles(s: Schema, dds: seq<string>, root: string, dot: string)
    requires LookupSafe(s)
    ensures var h := DoFilter(s, dds, dot, "", root);
      && (h.Compiled? <==> AllowedFilter(s, dds, root, dot))
      && (h.Compiled? ==> h.key == Join(FilterSegments(dot), "__"))
  {
    assert Join([], "__") == "";
    DoFilterFrom(s, dds, root, [], root, dot);
    assert [] + FilterSegments(dot) == FilterSegments(dot);
  }

  /** The message `self.error` gets for a refused path when the view is picky. */
  function RefusalError(path: string, why: Refusal): string
  {
    match why
    case NotAField(fieldname) => "\"" + fieldname + "\" is not a valid filter"
    case NotInDrilldowns => "Error in filters: " + Dotted(path)
    case NoChildren => "Error: " + path + " has no children"
  }

  /** The message `self.warning` gets for a refused path otherwise. */
  function RefusalWarning(path: string): string
  {
    "\"" + Dotted(path) + "\" is not a valid parameter"
  }

  /** A filter value: the parameter text, the list an `__in` filter gets, or a coerced boolean. */
  datatype FilterValue = Text(text: string) | Items(items: seq<string>) | Flag(flag: bool)

  /** The operator of a parameter name: `__` and the second `__` component, or nothing. */
  function Operation(key: string): string
  {
    var pair := Split(key, "__");
    if |pair| > 1 then "__" + pair[1] else ""
  }

  /**
   A parameter name with at most one `__` is its stem followed by its
   operator; with more, everything after the second `__` is dropped.
   */
  lemma StemOperation(key: string)
    ensures |Split(key, "__")| <= 2 ==> Stem(key) + Operation(key) == key
    ensures Absent(key, "__") ==> Stem(key) == key && Operation(key) == ""
  {
    var parts := Split(key, "__");
    if |parts| == 2 {
      JoinCons(parts[0], parts[1..], "__");
      assert parts == [parts[0]] + parts[1..];
    }
  }

  /** The value as stored before coercion: `__in` values are split on commas. */
  function RawValue(op: string, value: string): (r: FilterValue)
    ensures op == "__in" ==> r.Items? && Join(r.items, ",") == value
    ensures op != "__in" ==> r == Text(value)
  {
    if op == "__in" then Items(Split(value, ",")) else Text(value)
  }

  /**
   The keyword argument a parameter contributes once its path is compiled:
   the path followed by the operator, with the raw value; nothing for a
   refused or empty path.
   */
  function EntryOf(h: Hop, kv: (string, string)): Option<(string, FilterValue)>
  {
    match h
    case Compiled(key) =>
      if key == "" then None else Some((key + Operation(kv.0), RawValue(Operation(kv.0), kv.1)))
    case Refused(_, _) => None
  }

  /** The outcome of `do_filter` for one parameter, started at the root entity. */
  function Compile(s: Schema, dds: seq<string>, model: string, kv: (string, string)): Hop
  {
    DoFilter(s, dds, Stem(kv.0), "", model)
  }

  /** The outcomes for every parameter, in order. */
  function CompileAll(s: Schema, dds: seq<string>, model: string, filters: seq<(string, string)>): (hops: seq<Hop>)
    ensures |hops| == |filters|
    ensures forall i :: 0 <= i < |filters| ==> hops[i] == Compile(s, dds, model, filters[i])
  {
    seq(|filters|, i requires 0 <= i < |filters| => Compile(s, dds, model, filters[i]))
  }

  /** The result of `_set_filter_kwargs` together with the messages it leaves. */
  datatype Filters = Filters(kwargs: map<string, FilterValue>, error: Option<string>, warning: Option<string>)

  /** One pass of the loop over the filters, given the outcome of `do_filter`. */
  function AddFilter(picky: bool, h: Hop, kv: (string, string), acc: Filters): Filters
  {
    match h
    case Refused(path, why) =>
      if picky then acc.(error := Some(RefusalError(path, why)))
      else acc.(warning := Some(RefusalWarning(path)))
    case Compiled(_) =>
      match EntryOf(h, kv)
      case None => acc
      case Some(e) => acc.(kwargs := acc.kwargs[e.0 := e.1])
  }

  /** The loop over the filters, from an empty state. */
  function Gather(picky: bool, filters: seq<(string, string)>, hops: seq<Hop>): Filters
    requires |hops| == |filters|
    decreases |filters|
  {
    if |filters| == 0 then Filters(map[], None, None)
    else
      var n := |filters| - 1;
      AddFilter(picky, hops[n], filters[n], Gather(picky, filters[..n], hops[..n]))
  }

  /** The keyword argument each parameter contributes, in order. */
  function EntriesOf(filters: seq<(string, string)>, hops: seq<Hop>): (es: seq<Option<(string, FilterValue)>>)
    requires |hops| == |filters|
    ensures |es| == |filters|
    ensures forall i :: 0 <= i < |filters| ==> es[i] == EntryOf(hops[i], filters[i])
  {
    seq(|filters|, i requires 0 <= i < |filters| => EntryOf(hops[i], filters[i]))
  }

  /** Assigning the entries one after the other into an empty dictionary. */
  function Assign<V>(es: seq<Option<(string, V)>>): map<string, V>
    decreases |es|
  {
    if |es| == 0 then map[]
    else
      var n := |es| - 1;
      var m := Assign(es[..n]);
      match es[n]
      case None => m
      case Some(e) => m[e.0 := e.1]
  }

  /** Entry `i` gives the key `k`. */
  predicate Gives<V>(es: seq<Option<(string, V)>>, i: int, k: string)
  {
    0 <= i < |es| && es[i].Some? && es[i].value.0 == k
  }

  /** Entry `i` is the last to give the key `k`. */
  predicate GivesLast<V>(es: seq<Option<(string, V)>>, i: int, k: string)
  {
    Gives(es, i, k) && forall j :: i < j < |es| ==> !Gives(es, j, k)
  }

  /**
   Dictionary assignment: a key is present exactly when some entry gives it,
   and holds the value of the last entry that gives it.
   */
  lemma {:induction false} AssignSpec<V>(es: seq<Option<(string, V)>>)
    ensures forall k :: k in Assign(es) <==> exists i :: Gives(es, i, k)
    ensures forall k :: k in Assign(es) ==> exists i :: GivesLast(es, i, k) && es[i].value.1 == Assign(es)[k]
    decreases |es|
  {
    if |es| > 0 {
      var n := |es| - 1;
      var pre := es[..n];
      AssignSpec(pre);
      var m := Assign(pre);
      forall i, k | 0 <= i < n
        ensures Gives(pre, i, k) <==> Gives(es, i, k)
      {
        assert pre[i] == es[i];
      }
      assert es[n].None? ==> Assign(es) == m;
      assert es[n].Some? ==> Assign(es) == m[es[n].value.0 := es[n].value.1];
      forall k
        ensures k in Assign(es) <==> exists i :: Gives(es, i, k)
      {
        if exists i :: Gives(es, i, k) {
          var i :| Gives(es, i, k);
          if i < n {
            assert Gives(pre, i, k);
          }
        }
        if k in m {
          var i :| Gives(pre, i, k);
          assert Gives(es, i, k);
        } else if k in Assign(es) {
          assert Gives(es, n, k);
        }
      }
      forall k | k in Assign(es)
        ensures exists i :: GivesLast(es, i, k) && es[i].value.1 == Assign(es)[k]
      {
        if Gives(es, n, k) {
          assert GivesLast(es, n, k);
        } else {
          assert k in m && Assign(es)[k] == m[k];
          var i :| GivesLast(pre, i, k) && pre[i].value.1 == m[k];
          forall j | i < j < |es|
            ensures !Gives(es, j, k)
          {
            if j < n {
              assert !Gives(pre, j, k);
            }
          }
          assert GivesLast(es, i, k);
        }
      }
    }
  }

  /** The loop's dictionary is the assignment of the entries the parameters contribute. */
  lemma {:induction false} GatherAssigns(picky: bool, filters: seq<(string, string)>, hops: seq<Hop>)
    requires |hops| == |filters|
    ensures Gather(picky, filters, hops).kwargs == Assign(EntriesOf(filters, hops))
    decreases |filters|
  {
    if |filters| > 0 {
      var n := |filters| - 1;
      GatherAssigns(picky, filters[..n], hops[..n]);
      assert EntriesOf(filters, hops)[..n] == EntriesOf(filters[..n], hops[..n]);
    }
  }

  /**
   The keywords gathered: a key is present exactly when some parameter
   contributes it, and holds the value the last such parameter gives it.
   */
  lemma GatherKeys(picky: bool, filters: seq<(string, string)>, hops: seq<Hop>)
    requires |hops| == |filters|
    ensures var r := Gather(picky, filters, hops);
      var es := EntriesOf(filters, hops);
      && (forall k :: k in r.kwargs <==> exists i :: Gives(es, i, k))
      && (forall k :: k in r.kwargs ==> exists i :: GivesLast(es, i, k) && es[i].value.1 == r.kwargs[k])
  {
    GatherAssigns(picky, filters, hops);
    AssignSpec(EntriesOf(filters, hops));
  }

  /** Some parameter's path was refused. */
  predicate AnyRefused(hops: seq<Hop>)
  {
    exists h :: h in hops && h.Refused?
  }

  /** A refused parameter sets the error when the view is picky and the warning otherwise, and nothing else does. */
  lemma {:induction false} GatherMessages(picky: bool, filters: seq<(string, string)>, hops: seq<Hop>)
    requires |hops| == |filters|
    ensures var r := Gather(picky, filters, hops);
      && (r.error.Some? <==> picky && AnyRefused(hops))
      && (r.warning.Some? <==> !picky && AnyRefused(hops))
    decreases |filters|
  {
    if |filters| > 0 {
      var n := |filters| - 1;
      var prev := Gather(picky, filters[..n], hops[..n]);
      assert Gather(picky, filters, hops) == AddFilter(picky, hops[n], filters[n], prev);
      GatherMessages(picky, filters[..n], hops[..n]);
      AnyRefusedSnoc(hops);
      AddFilterMessages(picky, hops[n], filters[n], prev);
    }
  }

  lemma AnyRefusedSnoc(hops: seq<Hop>)
    requires |hops| > 0
    ensures AnyRefused(hops) <==> AnyRefused(hops[..|hops| - 1]) || hops[|hops| - 1].Refused?
  {
    var n := |hops| - 1;
    assert hops == hops[..n] + [hops[n]];
  }

  /** One pass sets the error (picky) or the warning (otherwise) exactly on a refusal, and keeps them. */
  lemma AddFilterMessages(picky: bool, h: Hop, kv: (string, string), acc: Filters)
    ensures var r := AddFilter(picky, h, kv, acc);
      && (r.error.Some? <==> acc.error.Some? || (picky && h.Refused?))
      && (r.warning.Some? <==> acc.warning.Some? || (!picky && h.Refused?))
  {
  }

  /** `_set_filter_kwargs` before the coercion: every filter compiled, then gathered. */
  function Collect(s: Schema, dds: seq<string>, picky: bool, model: string, filters: seq<(string, string)>): Filters
  {
    Gather(picky, filters, CompileAll(s, dds, model, filters))
  }

  /** The coercion after the loop: exactly the strings `true`, `True`, `false`, `False` become booleans. */
  function Coerce(v: FilterValue): (r: FilterValue)
  {
    if v == Text("true") || v == Text("True") then Flag(true)
    else if v == Text("false") || v == Text("False") then Flag(false)
    else v
  }

  /** The four boolean spellings the coercion recognises. */
  predicate IsBoolText(v: FilterValue)
  {
    v.Text? && v.text in {"true", "True", "false", "False"}
  }

  /** Coercion turns the boolean spellings into booleans, leaves every other value alone, and is idempotent. */
  lemma CoerceSpec(v: FilterValue)
    ensures IsBoolText(v) ==> Coerce(v) == Flag(v.text in {"true", "True"})
    ensures !IsBoolText(v) ==> Coerce(v) == v
    ensures !IsBoolText(Coerce(v)) && Coerce(Coerce(v)) == Coerce(v)
  {
  }

  /**
   `_set_filter_kwargs`: the collected keyword arguments with their values
   coerced; no boolean spelling survives as text.
   */
  function SetFilterKwargs(s: Schema, dds: seq<string>, picky: bool, model: string, filters: seq<(string, string)>): (r: Filters)
    ensures var c := Collect(s, dds, picky, model, filters);
      && r.kwargs.Keys == c.kwargs.Keys
      && (forall k :: k in r.kwargs ==> r.kwargs[k] == Coerce(c.kwargs[k]))
      && r.error == c.error && r.warning == c.warning
    ensures forall k :: k in r.kwargs ==> !IsBoolText(r.kwargs[k])
  {
    var c := Collect(s, dds, picky, model, filters);
    Filters(map k | k in c.kwargs :: Coerce(c.kwargs[k]), c.error, c.warning)
  }

  /** The keyword a filter parameter compiles to: its dotted path joined with `__`, then its operator. */
  function FilterKey(kv: (string, string)): string
  {
    Join(FilterSegments(Stem(kv.0)), "__") + Operation(kv.0)
  }

  /** The parameter's dotted path is allowed from the root entity. */
  predicate Accepted(s: Schema, dds: seq<string>, model: string, kv: (string, string))
  {
    AllowedFilter(s, dds, model, Stem(kv.0))
  }

  /** An allowed path starts with a field name, so its `__` join is not empty. */
  lemma AllowedNotEmpty(s: Schema, dds: seq<string>, root: string, dot: string)
    requires LookupSafe(s) && AllowedFilter(s, dds, root, dot)
    ensures Join(FilterSegments(dot), "__") != ""
  {
    var segs := FilterSegments(dot);
    assert Through([], segs, 0) == [segs[0]];
    assert KindAlong(s, root, [segs[0]]).Some?;
    assert Reaches(s, root, []) == Some(root);
    assert IsFieldIn(s, root, segs[0]);
    FieldIsSegment(s, root, segs[0]);
    if |segs| > 1 {
      JoinCons(segs[0], segs[1..], "__");
      assert segs == [segs[0]] + segs[1..];
    }
  }

  /** What one parameter contributes, in terms of the reference definition. */
  lemma EntryMeaning(s: Schema, dds: seq<string>, model: string, kv: (string, string))
    requires LookupSafe(s)
    ensures Compile(s, dds, model, kv).Refused? <==> !Accepted(s, dds, model, kv)
    ensures EntryOf(Compile(s, dds, model, kv), kv) ==
      if Accepted(s, dds, model, kv) then Some((FilterKey(kv), RawValue(Operation(kv.0), kv.1))) else None
  {
    DoFilterCompiles(s, dds, model, Stem(kv.0));
    if Accepted(s, dds, model, kv) {
      AllowedNotEmpty(s, dds, model, Stem(kv.0));
    }
  }

  /** Parameter `i` has an allowed path that compiles to the keyword `k`. */
  predicate Yields(s: Schema, dds: seq<string>, model: string, filters: seq<(string, string)>, i: int, k: string)
  {
    0 <= i < |filters| && Accepted(s, dds, model, filters[i]) && FilterKey(filters[i]) == k
  }

  /** The keyword and raw value each parameter should contribute, by the reference definition. */
  function Expected(s: Schema, dds: seq<string>, model: string, filters: seq<(string, string)>): (ex: seq<Option<(string, FilterValue)>>)
    ensures |ex| == |filters|
    ensures forall i :: 0 <= i < |filters| ==>
      ex[i] == if Accepted(s, dds, model, filters[i])
               then Some((FilterKey(filters[i]), RawValue(Operation(filters[i].0), filters[i].1))) else None
  {
    seq(|filters|, i requires 0 <= i < |filters| =>
      if Accepted(s, dds, model, filters[i]) then Some((FilterKey(filters[i]), RawValue(Operation(filters[i].0), filters[i].1))) else None)
  }

  /** The entries the loop assigns are the expected ones. */
  lemma EntriesMeaning(s: Schema, dds: seq<string>, model: string, filters: seq<(string, string)>)
    requires LookupSafe(s)
    ensures EntriesOf(filters, CompileAll(s, dds, model, filters)) == Expected(s, dds, model, filters)
  {
    var es := EntriesOf(filters, CompileAll(s, dds, model, filters));
    forall i | 0 <= i < |filters|
      ensures es[i] == Expected(s, dds, model, filters)[i]
    {
      EntryMeaning(s, dds, model, filters[i]);
    }
  }

  /** The loop's dictionary is the assignment of the expected entries. */
  lemma CollectAssigns(s: Schema, dds: seq<string>, picky: bool, model: string, filters: seq<(string, string)>)
    requires LookupSafe(s)
    ensures Collect(s, dds, picky, model, filters).kwargs == Assign(Expected(s, dds, model, filters))
  {
    GatherAssigns(picky, filters, CompileAll(s, dds, model, filters));
    EntriesMeaning(s, dds, model, filters);
  }

  /** The loop's dictionary against the reference, before coercion. */
  lemma CollectKeys(s: Schema, dds: seq<string>, picky: bool, model: string, filters: seq<(string, string)>)
    requires LookupSafe(s)
    ensures var c := Collect(s, dds, picky, model, filters);
      && (forall k :: k in c.kwargs <==> exists i :: Yields(s, dds, model, filters, i, k))
      && (forall k :: k in c.kwargs ==>
            exists i :: && Yields(s, dds, model, filters, i, k)
                        && c.kwargs[k] == RawValue(Operation(filters[i].0), filters[i].1)
                        && (forall j :: i < j < |filters| ==> !Yields(s, dds, model, filters, j, k)))
  {
    var ex := Expected(s, dds, model, filters);
    var m := Assign(ex);
    CollectAssigns(s, dds, picky, model, filters);
    AssignSpec(ex);
    assert forall i, k :: Gives(ex, i, k) <==> Yields(s, dds, model, filters, i, k);
    forall k | k in m
      ensures exists i :: && Yields(s, dds, model, filters, i, k)
                          && m[k] == RawValue(Operation(filters[i].0), filters[i].1)
                          && (forall j :: i < j < |filters| ==> !Yields(s, dds, model, filters, j, k))
    {
      var i :| GivesLast(ex, i, k) && ex[i].value.1 == m[k];
      assert forall j :: i < j < |filters| ==> !Gives(ex, j, k);
    }
  }

  /**
   `_set_filter_kwargs` against the reference: a keyword is present exactly
   when some parameter's dotted path is allowed and compiles to it, and it
   holds the coerced value of the last such parameter.
   */
  lemma FilterKwargsSpec(s: Schema, dds: seq<string>, picky: bool, model: string, filters: seq<(string, string)>)
    requires LookupSafe(s)
    ensures var r := SetFilterKwargs(s, dds, picky, model, filters);
      && (forall k :: k in r.kwargs <==> exists i :: Yields(s, dds, model, filters, i, k))
      && (forall k :: k in r.kwargs ==>
            exists i :: && Yields(s, dds, model, filters, i, k)
                        && r.kwargs[k] == Coerce(RawValue(Operation(filters[i].0), filters[i].1))
                        && (forall j :: i < j < |filters| ==> !Yields(s, dds, model, filters, j, k)))
  {
    CollectKeys(s, dds, picky, model, filters);
    var c := Collect(s, dds, picky, model, filters);
    var r := SetFilterKwargs(s, dds, picky, model, filters);
    forall k | k in r.kwargs
      ensures exists i :: && Yields(s, dds, model, filters, i, k)
                          && r.kwargs[k] == Coerce(RawValue(Operation(filters[i].0), filters[i].1))
                          && (forall j :: i < j < |filters| ==> !Yields(s, dds, model, filters, j, k))
    {
      assert k in c.kwargs;
      var i :| && Yields(s, dds, model, filters, i, k)
               && c.kwargs[k] == RawValue(Operation(filters[i].0), filters[i].1)
               && (forall j :: i < j < |filters| ==> !Yields(s, dds, model, filters, j, k));
      assert r.kwargs[k] == Coerce(c.kwargs[k]);
    }
  }

  /**
   The messages: a parameter whose dotted path is not allowed sets the error
   when the view is picky and the warning otherwise, and nothing else sets
   either.
   */
  lemma FilterMessagesSpec(s: Schema, dds: seq<string>, picky: bool, model: string, filters: seq<(string, string)>)
    requires LookupSafe(s)
    ensures var r := SetFilterKwargs(s, dds, picky, model, filters);
      && (r.error.Some? <==> picky && exists i :: 0 <= i < |filters| && !Accepted(s, dds, model, filters[i]))
      && (r.warning.Some? <==> !picky && exists i :: 0 <= i < |filters| && !Accepted(s, dds, model, filters[i]))
  {
    GatherMessages(picky, filters, CompileAll(s, dds, model, filters));
    RefusedMeaning(s, dds, model, filters);
  }

  /** Some filter is refused exactly when some parameter's dotted path is not allowed. */
  lemma RefusedMeaning(s: Schema, dds: seq<string>, model: string, filters: seq<(string, string)>)
    requires LookupSafe(s)
    ensures AnyRefused(CompileAll(s, dds, model, filters)) <==> exists i :: 0 <= i < |filters| && !Accepted(s, dds, model, filters[i])
  {
    var hops := CompileAll(s, dds, model, filters);
    HopsMeaning(s, dds, model, filters);
    if AnyRefused(hops) {
      var h :| h in hops && h.Refused?;
      var i :| 0 <= i < |hops| && hops[i] == h;
      assert !Accepted(s, dds, model, filters[i]);
    }
    if exists i :: 0 <= i < |filters| && !Accepted(s, dds, model, filters[i]) {
      var i :| 0 <= i < |filters| && !Accepted(s, dds, model, filters[i]);
      assert hops[i] in hops;
    }
  }

  lemma HopsMeaning(s: Schema, dds: seq<string>, model: string, filters: seq<(string, string)>)
    requires LookupSafe(s)
    ensures var hops := CompileAll(s, dds, model, filters);
      forall i :: 0 <= i < |filters| ==> (hops[i].Refused? <==> !Accepted(s, dds, model, filters[i]))
  {
    var hops := CompileAll(s, dds, model, filters);
    forall i | 0 <= i < |filters|
      ensures hops[i].Refused? <==> !Accepted(s, dds, model, filters[i])
    {
      EntryMeaning(s, dds, model, filters[i]);
    }
  }

  /** Some parameter left after the ignore list has a dotted path that is not allowed. */
  predicate SomeRefused(s: Schema, dds: seq<string>, model: string, params: seq<(string, string)>, ignored: set<string>)
  {
    exists kv :: kv in params && Stem(kv.0) !in ignored && !Accepted(s, dds, model, kv)
  }

  /** Some parameter left after the ignore list compiles to keyword `k`. */
  predicate Requests(s: Schema, dds: seq<string>, model: string, params: seq<(string, string)>, ignored: set<string>, k: string)
  {
    exists kv :: kv in params && Stem(kv.0) !in ignored && Accepted(s, dds, model, kv) && FilterKey(kv) == k
  }

  /** A property holds of some parameter the ignore list lets through exactly when it holds of some prefiltered one. */
  lemma PrefilterAny(params: seq<(string, string)>, ignored: set<string>, p: ((string, string)) -> bool)
    ensures (exists i :: 0 <= i < |Prefilter(params, ignored)| && p(Prefilter(params, ignored)[i])) <==>
            (exists kv :: kv in params && Stem(kv.0) !in ignored && p(kv))
  {
    var filters := Prefilter(params, ignored);
    if exists kv :: kv in params && Stem(kv.0) !in ignored && p(kv) {
      var kv :| kv in params && Stem(kv.0) !in ignored && p(kv);
      var i :| 0 <= i < |filters| && filters[i] == kv;
      assert p(filters[i]);
      assert exists j :: 0 <= j < |Prefilter(params, ignored)| && p(Prefilter(params, ignored)[j]);
    } else {
      forall i | 0 <= i < |filters|
        ensures !p(filters[i])
      {
        assert filters[i] in filters;
      }
    }
  }

  /** One keyword of a request, from its raw parameters. */
  lemma RequestKeyword(s: Schema, dds: seq<string>, picky: bool, model: string, params: seq<(string, string)>, ignored: set<string>, k: string)
    requires LookupSafe(s)
    ensures k in SetFilterKwargs(s, dds, picky, model, Prefilter(params, ignored)).kwargs <==> Requests(s, dds, model, params, ignored, k)
  {
    FilterKeysSpec(s, dds, picky, model, Prefilter(params, ignored));
    YieldsPrefiltered(s, dds, model, params, ignored, k);
  }

  /** The keys of the keyword arguments, alone. */
  lemma FilterKeysSpec(s: Schema, dds: seq<string>, picky: bool, model: string, filters: seq<(string, string)>)
    requires LookupSafe(s)
    ensures forall k :: k in SetFilterKwargs(s, dds, picky, model, filters).kwargs <==> exists i :: Yields(s, dds, model, filters, i, k)
  {
    CollectKeys(s, dds, picky, model, filters);
  }

  /** Some prefiltered parameter yields `k` exactly when some parameter the ignore list lets through does. */
  lemma YieldsPrefiltered(s: Schema, dds: seq<string>, model: string, params: seq<(string, string)>, ignored: set<string>, k: string)
    ensures (exists i :: Yields(s, dds, model, Prefilter(params, ignored), i, k)) <==> Requests(s, dds, model, params, ignored, k)
  {
    var filters := Prefilter(params, ignored);
    var p := (kv: (string, string)) => Accepted(s, dds, model, kv) && FilterKey(kv) == k;
    PrefilterAny(params, ignored, p);
    if exists i :: Yields(s, dds, model, filters, i, k) {
      var i :| Yields(s, dds, model, filters, i, k);
      assert p(filters[i]);
    }
    if Requests(s, dds, model, params, ignored, k) {
      var kv :| kv in params && Stem(kv.0) !in ignored && Accepted(s, dds, model, kv) && FilterKey(kv) == k;
      assert p(kv);
      var i :| 0 <= i < |filters| && p(filters[i]);
      assert Yields(s, dds, model, filters, i, k);
    }
  }

  /**
   The keywords of a request, from its raw parameters: those of the allowed
   parameters the ignore list lets through.
   */
  lemma RequestKeywords(s: Schema, dds: seq<string>, picky: bool, model: string, params: seq<(string, string)>, ignored: set<string>)
    requires LookupSafe(s)
    ensures var r := SetFilterKwargs(s, dds, picky, model, Prefilter(params, ignored));
      forall k :: k in r.kwargs <==> Requests(s, dds, model, params, ignored, k)
  {
    forall k {
      RequestKeyword(s, dds, picky, model, params, ignored, k);
    }
  }

  /**
   The messages of a request, from its raw parameters: a refused parameter
   the ignore list lets through sets the error when the view is picky and
   the warning otherwise.
   */
  lemma RequestMessages(s: Schema, dds: seq<string>, picky: bool, model: string, params: seq<(string, string)>, ignored: set<string>)
    requires LookupSafe(s)
    ensures var r := SetFilterKwargs(s, dds, picky, model, Prefilter(params, ignored));
      && (r.error.Some? <==> picky && SomeRefused(s, dds, model, params, ignored))
      && (r.warning.Some? <==> !picky && SomeRefused(s, dds, model, params, ignored))
  {
    var filters := Prefilter(params, ignored);
    FilterMessagesSpec(s, dds, picky, model, filters);
    var p := (kv: (string, string)) => !Accepted(s, dds, model, kv);
    PrefilterAny(params, ignored, p);
  }
}
