/**
 `DrillDownAPIView._create_fields_map`: the comma-separated `fields`
 parameter, each entry a dotted path such as `client.profile.first_name`
 or `client.ALL`, becomes a tree of requested field names. Every relation
 the tree drills into (and every bare ManyToMany field) must be one of the
 validated drilldowns, and is recorded for `select_related` (ForeignKey,
 OneToOne, RelatedObject) or `prefetch_related` (ManyToMany). A
 RelatedObject is a reverse accessor and may be to-many; it still goes to
 `select_related`, and asked for bare it is a plain field.
 */
module FieldsMap {
  import opened Wrappers
  import opened Strings
  import opened Schema
  import opened Paths

  /** The nested dictionary the source calls `fields_map`; a leaf is `{}`. */
  datatype FieldTree = FieldTree(children: map<string, FieldTree>)

  const Leaf: FieldTree := FieldTree(map[])

  /** `{'id': {}}`, the subtree of a relation requested without sub-fields. */
  const IdOnly: FieldTree := FieldTree(map["id" := Leaf])

  /** The instance state the compiler writes: `select_relateds`, `prefetch_relateds` and `error`. */
  datatype Acc = Acc(selects: seq<string>, prefetches: seq<string>, error: Option<string>)

  datatype Step = Step(tree: FieldTree, acc: Acc)

  /** What the compiler reads from the view: the schema, the validated drilldowns and `hide_fields`. */
  datatype Scope = Scope(schema: Schema, drilldowns: seq<string>, hideFields: seq<string>)

  const ErrorPrefix: string := "Error in fields"

  function NotAFieldMessage(dot: string): string
  {
    ErrorPrefix + ": \"" + dot + "\" is not a valid field"
  }

  function NotAllowedMessage(path: string): string
  {
    ErrorPrefix + ": " + Dotted(path) + " is not valid"
  }

  function NoSubfieldsMessage(dot: string): string
  {
    ErrorPrefix + ": " + dot + " not valid field"
  }

  /** The entry for `fields` in `hide_fields` that hides `fname` under the relation path `related`. */
  function HideKey(related: string, fname: string): string
  {
    Strip(Dotted(related) + "." + fname, {'.'})
  }

  predicate IsManyToMany(s: Schema, model: string, name: string)
  {
    FieldType(s, model, name).Some? && FieldType(s, model, name).value.ManyToMany?
  }

  /** The `ALL` expansion takes `fname` unless it is hidden or an out-of-range ManyToMany field. */
  predicate Admits(sc: Scope, model: string, related: string, fname: string)
  {
    HideKey(related, fname) !in sc.hideFields &&
    (IsManyToMany(sc.schema, model, fname) ==> Extend(related, fname) in sc.drilldowns)
  }

  /** The names among `names` the `ALL` expansion takes. */
  function Eligible(sc: Scope, model: string, related: string, names: seq<string>): set<string>
  {
    set k | 0 <= k < |names| && Admits(sc, model, related, names[k]) :: names[k]
  }

  /** The first dotted segment of a request, as it is looked up. */
  function Head(dot: string): string
  {
    StripWs(SplitOnce(dot, ".")[0])
  }

  /** Part of the termination measure: `ALL` expands into plain names, a bare relation into `id`. */
  function Phase(dot: string): nat
  {
    if Head(dot) == "ALL" then 2 else if Head(dot) == "id" then 0 else 1
  }

  /** The key names a single request adds to a tree. */
  function RequestKeys(sc: Scope, model: string, dot: string, related: string): set<string>
  {
    var f := Head(dot);
    if f == "ALL" then Eligible(sc, model, related, Names(sc.schema, model))
    else if IsFieldIn(sc.schema, model, f) then {f}
    else {}
  }

  /** `t` with `name` added as `{}` unless it is already there. */
  function Touch(t: FieldTree, name: string): FieldTree
  {
    if name in t.children then t else FieldTree(t.children[name := Leaf])
  }

  /**
   The shape the compiler guarantees: every key is a field of its entity,
   and a key with a non-empty subtree is a relation whose path is one of
   the validated drilldowns, with a subtree of the same shape.
   */
  predicate TreeOk(sc: Scope, model: string, t: FieldTree, related: string)
    decreases t
  {
    forall k :: k in t.children ==>
      && IsFieldIn(sc.schema, model, k)
      && (t.children[k] != Leaf ==>
            && RelatedModel(sc.schema, model, k).Some?
            && Extend(related, k) in sc.drilldowns
            && TreeOk(sc, RelatedModel(sc.schema, model, k).value, t.children[k], Extend(related, k)))
  }

  /** The recorded lists only grow, by paths that are validated drilldowns, and an error stays. */
  predicate Grows(sc: Scope, a: Acc, b: Acc)
  {
    && a.selects <= b.selects
    && a.prefetches <= b.prefetches
    && (forall i :: |a.selects| <= i < |b.selects| ==> b.selects[i] in sc.drilldowns)
    && (forall i :: |a.prefetches| <= i < |b.prefetches| ==> b.prefetches[i] in sc.drilldowns)
    && (a.error.Some? ==> b.error.Some?)
  }

  lemma GrowsTrans(sc: Scope, a: Acc, b: Acc, c: Acc)
    requires Grows(sc, a, b) && Grows(sc, b, c)
    ensures Grows(sc, a, c)
  {
    forall i | |a.selects| <= i < |c.selects|
      ensures c.selects[i] in sc.drilldowns
    {
      if i < |b.selects| {
        assert c.selects[i] == b.selects[i];
      }
    }
    forall i | |a.prefetches| <= i < |c.prefetches|
      ensures c.prefetches[i] in sc.drilldowns
    {
      if i < |b.prefetches| {
        assert c.prefetches[i] == b.prefetches[i];
      }
    }
  }

  /** A well-formed field name is its own head, with a smaller measure than `ALL`. */
  lemma PlainMeasure(n: string)
    requires PlainName(n)
    ensures |Split(n, ".")| == 1 && SplitOnce(n, ".") == [n] && Head(n) == n && Phase(n) <= 1
  {
    IdentifierSegment(n);
  }

  /**
   `add_to_fields_map`: look up the head of `dot` in `model`. `ALL`
   expands to every admitted field name; a relation that is ManyToMany or has
   sub-fields must have its path among the drilldowns, is recorded, and is
   descended into (with `id` as the default sub-field); a sub-field of a
   non-relation is an error.
   */
  function Add(sc: Scope, model: string, t: FieldTree, dot: string, related: string, acc: Acc): Step
    requires WellFormed(sc.schema)
    decreases |Split(dot, ".")|, Phase(dot), 2
  {
    var fieldname := Head(dot);
    if !(fieldname == "ALL" || IsFieldIn(sc.schema, model, fieldname)) then
      Step(t, acc.(error := Some(NotAFieldMessage(dot))))
    else if fieldname == "ALL" then
      NamesArePlain(sc.schema, model);
      AddAll(sc, model, t, Names(sc.schema, model), related, acc)
    else
      AddField(sc, model, Touch(t, fieldname), dot, related, acc)
  }

  /** The branch of `add_to_fields_map` for a request whose head is a field of `model`, already in `t`. */
  function AddField(sc: Scope, model: string, t: FieldTree, dot: string, related: string, acc: Acc): Step
    requires WellFormed(sc.schema)
    requires IsFieldIn(sc.schema, model, Head(dot)) && Head(dot) in t.children && Head(dot) != "ALL"
    decreases |Split(dot, ".")|, Phase(dot), 1
  {
    var pair := SplitOnce(dot, ".");
    var fieldname := Head(dot);
    var hasSubfields := |pair| > 1;
    var kind := FieldType(sc.schema, model, fieldname).value;
    if kind.IsRelation() && (kind.ManyToMany? || hasSubfields) then
      var path := Extend(related, fieldname);
      if path in sc.drilldowns then
        var acc1 := if kind.IsSelectRelated() then acc.(selects := acc.selects + [path])
                    else acc.(prefetches := acc.prefetches + [path]);
        var child := t.children[fieldname];
        var r := if hasSubfields then Add(sc, kind.target, child, pair[1], path, acc1)
                 else AddId(sc, model, kind.target, child, dot, acc1);
        Step(FieldTree(t.children[fieldname := r.tree]), r.acc)
      else
        Step(t, acc.(error := Some(NotAllowedMessage(path))))
    else if hasSubfields then
      Step(t, acc.(error := Some(NoSubfieldsMessage(dot))))
    else
      Step(t, acc)
  }

  /** The default sub-request `id` for a ManyToMany relation requested without sub-fields. */
  function AddId(sc: Scope, model: string, target: string, child: FieldTree, dot: string, acc: Acc): Step
    requires WellFormed(sc.schema)
    requires |SplitOnce(dot, ".")| == 1 && IsManyToMany(sc.schema, model, Head(dot))
    decreases |Split(dot, ".")|, Phase(dot), 0
  {
    IdIsNotManyToMany(sc.schema, model);
    PlainMeasure("id");
    Add(sc, target, child, "id", "", acc)
  }

  /** The loop of the `ALL` expansion over the field names of `model`, in schema order. */
  function AddAll(sc: Scope, model: string, t: FieldTree, names: seq<string>, related: string, acc: Acc): Step
    requires WellFormed(sc.schema)
    requires forall k :: 0 <= k < |names| ==> PlainName(names[k])
    decreases 1, 1, |names| + 3
  {
    if |names| == 0 then Step(t, acc)
    else
      var r := AddOne(sc, model, t, names[0], related, acc);
      AddAll(sc, model, r.tree, names[1..], related, r.acc)
  }

  /** One name of the `ALL` expansion: requested when it is admitted, skipped otherwise. */
  function AddOne(sc: Scope, model: string, t: FieldTree, fname: string, related: string, acc: Acc): Step
    requires WellFormed(sc.schema) && PlainName(fname)
    decreases 1, 1, 3
  {
    PlainMeasure(fname);
    if Admits(sc, model, related, fname) then Add(sc, model, t, fname, related, acc) else Step(t, acc)
  }

  lemma EligibleCons(sc: Scope, model: string, related: string, names: seq<string>)
    requires |names| > 0
    ensures Eligible(sc, model, related, names) ==
      (if Admits(sc, model, related, names[0]) then {names[0]} else {}) + Eligible(sc, model, related, names[1..])
  {
    var rest := names[1..];
    forall x | x in Eligible(sc, model, related, names)
      ensures x in (if Admits(sc, model, related, names[0]) then {names[0]} else {}) + Eligible(sc, model, related, rest)
    {
      var k :| 0 <= k < |names| && Admits(sc, model, related, names[k]) && names[k] == x;
      if k > 0 {
        assert rest[k - 1] == x;
      }
    }
    forall x | x in Eligible(sc, model, related, rest)
      ensures x in Eligible(sc, model, related, names)
    {
      var k :| 0 <= k < |rest| && Admits(sc, model, related, rest[k]) && rest[k] == x;
      assert names[k + 1] == x;
    }
  }

  /** Setting key `k` of a well-shaped tree to a well-shaped subtree keeps the shape. */
  lemma TreeOkUpdate(sc: Scope, model: string, t: FieldTree, related: string, k: string, sub: FieldTree)
    requires TreeOk(sc, model, t, related) && IsFieldIn(sc.schema, model, k)
    requires sub != Leaf ==>
      && RelatedModel(sc.schema, model, k).Some?
      && Extend(related, k) in sc.drilldowns
      && TreeOk(sc, RelatedModel(sc.schema, model, k).value, sub, Extend(related, k))
    ensures TreeOk(sc, model, FieldTree(t.children[k := sub]), related)
  {
  }

  lemma TouchOk(sc: Scope, model: string, t: FieldTree, related: string, k: string)
    requires TreeOk(sc, model, t, related) && IsFieldIn(sc.schema, model, k)
    ensures TreeOk(sc, model, Touch(t, k), related)
  {
    if k !in t.children {
      TreeOkUpdate(sc, model, t, related, k, Leaf);
    }
  }

  /**
   A request naming a single field that is not a ManyToMany relation (the
   default `id` sub-request is one) only adds that key, as `{}`, and records
   nothing; an unknown name only sets the error.
   */
  lemma AddPlain(sc: Scope, model: string, t: FieldTree, dot: string, related: string, acc: Acc)
    requires WellFormed(sc.schema)
    requires Lacks(dot, '.') && !IsManyToMany(sc.schema, model, StripWs(dot)) && StripWs(dot) != "ALL"
    ensures var r := Add(sc, model, t, dot, related, acc);
      if IsFieldIn(sc.schema, model, StripWs(dot)) then r == Step(Touch(t, StripWs(dot)), acc)
      else r == Step(t, acc.(error := Some(NotAFieldMessage(dot))))
  {
    SplitLacking(dot, '.');
    assert Head(dot) == StripWs(dot);
  }

  // The recorded lists only grow, and only by validated drilldowns.

  lemma {:induction false} AddGrows(sc: Scope, model: string, t: FieldTree, dot: string, related: string, acc: Acc)
    requires WellFormed(sc.schema)
    ensures Grows(sc, acc, Add(sc, model, t, dot, related, acc).acc)
    decreases |Split(dot, ".")|, Phase(dot), 2
  {
    var fieldname := Head(dot);
    if fieldname == "ALL" {
      NamesArePlain(sc.schema, model);
      AddAllGrows(sc, model, t, Names(sc.schema, model), related, acc);
    } else if IsFieldIn(sc.schema, model, fieldname) {
      AddFieldGrows(sc, model, Touch(t, fieldname), dot, related, acc);
    }
  }

  lemma {:induction false} AddFieldGrows(sc: Scope, model: string, t: FieldTree, dot: string, related: string, acc: Acc)
    requires WellFormed(sc.schema)
    requires IsFieldIn(sc.schema, model, Head(dot)) && Head(dot) in t.children && Head(dot) != "ALL"
    ensures Grows(sc, acc, AddField(sc, model, t, dot, related, acc).acc)
    decreases |Split(dot, ".")|, Phase(dot), 1
  {
    var pair := SplitOnce(dot, ".");
    var fieldname := Head(dot);
    var kind := FieldType(sc.schema, model, fieldname).value;
    var path := Extend(related, fieldname);
    if kind.IsRelation() && (kind.ManyToMany? || |pair| > 1) && path in sc.drilldowns {
      var acc1 := if kind.IsSelectRelated() then acc.(selects := acc.selects + [path])
                  else acc.(prefetches := acc.prefetches + [path]);
      var child := t.children[fieldname];
      if |pair| > 1 {
        AddGrows(sc, kind.target, child, pair[1], path, acc1);
        GrowsTrans(sc, acc, acc1, Add(sc, kind.target, child, pair[1], path, acc1).acc);
      } else {
        AddIdGrows(sc, model, kind.target, child, dot, acc1);
        GrowsTrans(sc, acc, acc1, AddId(sc, model, kind.target, child, dot, acc1).acc);
      }
    }
  }

  lemma {:induction false} AddIdGrows(sc: Scope, model: string, target: string, child: FieldTree, dot: string, acc: Acc)
    requires WellFormed(sc.schema)
    requires |SplitOnce(dot, ".")| == 1 && IsManyToMany(sc.schema, model, Head(dot))
    ensures Grows(sc, acc, AddId(sc, model, target, child, dot, acc).acc)
    decreases |Split(dot, ".")|, Phase(dot), 0
  {
    IdIsNotManyToMany(sc.schema, model);
    PlainMeasure("id");
    AddGrows(sc, target, child, "id", "", acc);
  }

  lemma {:induction false} AddAllGrows(sc: Scope, model: string, t: FieldTree, names: seq<string>, related: string, acc: Acc)
    requires WellFormed(sc.schema)
    requires forall k :: 0 <= k < |names| ==> PlainName(names[k])
    ensures Grows(sc, acc, AddAll(sc, model, t, names, related, acc).acc)
    decreases 1, 1, |names| + 2
  {
    if |names| > 0 {
      var fname := names[0];
      PlainMeasure(fname);
      var r := AddOne(sc, model, t, fname, related, acc);
      if Admits(sc, model, related, fname) {
        AddGrows(sc, model, t, fname, related, acc);
      }
      AddAllGrows(sc, model, r.tree, names[1..], related, r.acc);
      GrowsTrans(sc, acc, r.acc, AddAll(sc, model, r.tree, names[1..], related, r.acc).acc);
    }
  }

  // The keys a request adds.

  lemma AddFieldKeys(sc: Scope, model: string, t: FieldTree, dot: string, related: string, acc: Acc)
    requires WellFormed(sc.schema)
    requires IsFieldIn(sc.schema, model, Head(dot)) && Head(dot) in t.children && Head(dot) != "ALL"
    ensures AddField(sc, model, t, dot, related, acc).tree.children.Keys == t.children.Keys
  {
  }

  lemma {:induction false} AddKeys(sc: Scope, model: string, t: FieldTree, dot: string, related: string, acc: Acc)
    requires WellFormed(sc.schema)
    ensures Add(sc, model, t, dot, related, acc).tree.children.Keys == t.children.Keys + RequestKeys(sc, model, dot, related)
    decreases |Split(dot, ".")|, Phase(dot), 2
  {
    var fieldname := Head(dot);
    if fieldname == "ALL" {
      NamesArePlain(sc.schema, model);
      AddAllKeys(sc, model, t, Names(sc.schema, model), related, acc);
    } else if IsFieldIn(sc.schema, model, fieldname) {
      AddFieldKeys(sc, model, Touch(t, fieldname), dot, related, acc);
    }
  }

  /** The keys one name of an `ALL` expansion adds: itself, when it is admitted. */
  lemma {:induction false} AddAllHeadKeys(sc: Scope, model: string, t: FieldTree, fname: string, related: string, acc: Acc)
    requires WellFormed(sc.schema) && PlainName(fname) && IsFieldIn(sc.schema, model, fname)
    ensures var r := AddOne(sc, model, t, fname, related, acc);
      r.tree.children.Keys == t.children.Keys + (if Admits(sc, model, related, fname) then {fname} else {})
    decreases 1, 1, 3
  {
    PlainMeasure(fname);
    if Admits(sc, model, related, fname) {
      AddKeys(sc, model, t, fname, related, acc);
      assert RequestKeys(sc, model, fname, related) == {fname};
    }
  }

  lemma {:induction false} AddAllKeys(sc: Scope, model: string, t: FieldTree, names: seq<string>, related: string, acc: Acc)
    requires WellFormed(sc.schema)
    requires forall k :: 0 <= k < |names| ==> PlainName(names[k]) && IsFieldIn(sc.schema, model, names[k])
    ensures AddAll(sc, model, t, names, related, acc).tree.children.Keys == t.children.Keys + Eligible(sc, model, related, names)
    decreases 1, 1, |names| + 3
  {
    if |names| > 0 {
      var fname := names[0];
      PlainMeasure(fname);
      var r := AddOne(sc, model, t, fname, related, acc);
      AddAllHeadKeys(sc, model, t, fname, related, acc);
      AddAllKeys(sc, model, r.tree, names[1..], related, r.acc);
      EligibleCons(sc, model, related, names);
    }
  }

  // The shape of the tree.

  lemma {:induction false} AddTreeOk(sc: Scope, model: string, t: FieldTree, dot: string, related: string, acc: Acc)
    requires WellFormed(sc.schema) && TreeOk(sc, model, t, related)
    ensures TreeOk(sc, model, Add(sc, model, t, dot, related, acc).tree, related)
    decreases |Split(dot, ".")|, Phase(dot), 2
  {
    var fieldname := Head(dot);
    if fieldname == "ALL" {
      NamesArePlain(sc.schema, model);
      AddAllTreeOk(sc, model, t, Names(sc.schema, model), related, acc);
    } else if IsFieldIn(sc.schema, model, fieldname) {
      TouchOk(sc, model, t, related, fieldname);
      AddFieldTreeOk(sc, model, Touch(t, fieldname), dot, related, acc);
    }
  }

  lemma {:induction false} AddFieldTreeOk(sc: Scope, model: string, t: FieldTree, dot: string, related: string, acc: Acc)
    requires WellFormed(sc.schema) && TreeOk(sc, model, t, related)
    requires IsFieldIn(sc.schema, model, Head(dot)) && Head(dot) in t.children && Head(dot) != "ALL"
    ensures TreeOk(sc, model, AddField(sc, model, t, dot, related, acc).tree, related)
    decreases |Split(dot, ".")|, Phase(dot), 1
  {
    var pair := SplitOnce(dot, ".");
    var fieldname := Head(dot);
    var kind := FieldType(sc.schema, model, fieldname).value;
    var path := Extend(related, fieldname);
    if kind.IsRelation() && (kind.ManyToMany? || |pair| > 1) && path in sc.drilldowns {
      var acc1 := if kind.IsSelectRelated() then acc.(selects := acc.selects + [path])
                  else acc.(prefetches := acc.prefetches + [path]);
      var child := t.children[fieldname];
      assert TreeOk(sc, kind.target, child, path);
      var sub := if |pair| > 1 then Add(sc, kind.target, child, pair[1], path, acc1).tree
                 else AddId(sc, model, kind.target, child, dot, acc1).tree;
      if |pair| > 1 {
        AddTreeOk(sc, kind.target, child, pair[1], path, acc1);
      } else {
        AddIdTreeOk(sc, model, kind.target, child, dot, acc1, path);
      }
      TreeOkUpdate(sc, model, t, related, fieldname, sub);
    }
  }

  lemma AddIdTreeOk(sc: Scope, model: string, target: string, child: FieldTree, dot: string, acc: Acc, path: string)
    requires WellFormed(sc.schema) && TreeOk(sc, target, child, path)
    requires |SplitOnce(dot, ".")| == 1 && IsManyToMany(sc.schema, model, Head(dot))
    ensures TreeOk(sc, target, AddId(sc, model, target, child, dot, acc).tree, path)
  {
    IdIsNotManyToMany(sc.schema, target);
    IdentifierSegment("id");
    AddPlain(sc, target, child, "id", "", acc);
    if IsFieldIn(sc.schema, target, "id") {
      TouchOk(sc, target, child, path, "id");
    }
  }

  lemma {:induction false} AddAllTreeOk(sc: Scope, model: string, t: FieldTree, names: seq<string>, related: string, acc: Acc)
    requires WellFormed(sc.schema) && TreeOk(sc, model, t, related)
    requires forall k :: 0 <= k < |names| ==> PlainName(names[k])
    ensures TreeOk(sc, model, AddAll(sc, model, t, names, related, acc).tree, related)
    decreases 1, 1, |names| + 2
  {
    if |names| > 0 {
      var fname := names[0];
      PlainMeasure(fname);
      var r := AddOne(sc, model, t, fname, related, acc);
      if Admits(sc, model, related, fname) {
        AddTreeOk(sc, model, t, fname, related, acc);
      }
      AddAllTreeOk(sc, model, r.tree, names[1..], related, r.acc);
    }
  }

  lemma AddTreeOkIf(sc: Scope, model: string, t: FieldTree, dot: string, related: string, acc: Acc)
    requires WellFormed(sc.schema)
    ensures TreeOk(sc, model, t, related) ==> TreeOk(sc, model, Add(sc, model, t, dot, related, acc).tree, related)
  {
    if TreeOk(sc, model, t, related) {
      AddTreeOk(sc, model, t, dot, related, acc);
    }
  }

  /** The keys a list of requests adds at the top level. */
  function AllRequestKeys(sc: Scope, model: string, fields: seq<string>): set<string>
    decreases |fields|
  {
    if |fields| == 0 then {} else RequestKeys(sc, model, fields[0], "") + AllRequestKeys(sc, model, fields[1..])
  }

  /** The loop of `_create_fields_map` over the requested fields; an error does not stop it. */
  function AddEach(sc: Scope, model: string, t: FieldTree, fields: seq<string>, acc: Acc): (r: Step)
    requires WellFormed(sc.schema)
    ensures Grows(sc, acc, r.acc)
    ensures r.tree.children.Keys == t.children.Keys + AllRequestKeys(sc, model, fields)
    ensures TreeOk(sc, model, t, "") ==> TreeOk(sc, model, r.tree, "")
    decreases |fields|
  {
    if |fields| == 0 then Step(t, acc)
    else
      var r1 := Add(sc, model, t, fields[0], "", acc);
      AddGrows(sc, model, t, fields[0], "", acc);
      AddKeys(sc, model, t, fields[0], "", acc);
      AddTreeOkIf(sc, model, t, fields[0], "", acc);
      var r := AddEach(sc, model, r1.tree, fields[1..], r1.acc);
      GrowsTrans(sc, acc, r1.acc, r.acc);
      r
  }

  /** Nothing recorded and no error: the state on entry to `_create_fields_map`. */
  const Fresh: Acc := Acc([], [], None)

  /**
   `_create_fields_map`: the field tree for the requested fields. On an
   error the tree is `{}`; otherwise its top-level keys are exactly the
   keys the requests name. Either way it has the guaranteed shape, and
   every recorded related path is a validated drilldown.
   */
  function CreateFieldsMap(sc: Scope, model: string, fields: seq<string>): (r: Step)
    requires WellFormed(sc.schema)
    ensures r.acc.error.Some? ==> r.tree == Leaf
    ensures r.acc.error.None? ==> r.tree.children.Keys == AllRequestKeys(sc, model, fields)
    ensures TreeOk(sc, model, r.tree, "")
    ensures forall i :: 0 <= i < |r.acc.selects| ==> r.acc.selects[i] in sc.drilldowns
    ensures forall i :: 0 <= i < |r.acc.prefetches| ==> r.acc.prefetches[i] in sc.drilldowns
  {
    var r := AddEach(sc, model, Leaf, fields, Fresh);
    if r.acc.error.Some? then Step(Leaf, r.acc) else r
  }

  /**
   The `fields` parameter: absent or empty means no fields; otherwise its
   comma-separated pieces, which join back to the parameter.
   */
  function FieldsParam(param: Option<string>): (fields: seq<string>)
    ensures fields == [] <==> param.None? || param.value == ""
    ensures fields != [] ==> Join(fields, ",") == param.value
    ensures forall i :: 0 <= i < |fields| ==> Absent(fields[i], ",")
  {
    if param.None? || param.value == "" then [] else Split(param.value, ",")
  }

  // Single requests at the top level.

  /** A field name leaves the `__` path notation unchanged at the top level. */
  lemma ExtendTop(f: string)
    requires CleanSegment(f)
    ensures Extend("", f) == f
  {
    ExtendJoin([], f);
    assert [] + [f] == [f];
  }

  /** A single request is one call of `add_to_fields_map` from the top, emptied on error. */
  lemma CreateOne(sc: Scope, model: string, dot: string)
    requires WellFormed(sc.schema)
    ensures var r := Add(sc, model, Leaf, dot, "", Fresh);
      CreateFieldsMap(sc, model, [dot]) == if r.acc.error.Some? then Step(Leaf, r.acc) else r
  {
    var r := Add(sc, model, Leaf, dot, "", Fresh);
    assert [dot][1..] == [];
    assert AddEach(sc, model, Leaf, [dot], Fresh) == AddEach(sc, model, r.tree, [], r.acc);
  }

  /**
   A bare field that is not a ManyToMany relation (a scalar, or a
   ForeignKey, OneToOne or RelatedObject field requested without
   sub-fields) is returned as `{}` and joins nothing.
   */
  lemma BareField(sc: Scope, model: string, f: string)
    requires WellFormed(sc.schema) && IsFieldIn(sc.schema, model, f) && !IsManyToMany(sc.schema, model, f)
    ensures CreateFieldsMap(sc, model, [f]) == Step(FieldTree(map[f := Leaf]), Fresh)
  {
    NamesArePlain(sc.schema, model);
    IdentifierSegment(f);
    AddPlain(sc, model, Leaf, f, "", Fresh);
    CreateOne(sc, model, f);
  }

  /**
   A bare ManyToMany relation within the drilldowns is returned as
   `{'id': {}}` and prefetched.
   */
  lemma BareManyToMany(sc: Scope, model: string, f: string)
    requires WellFormed(sc.schema) && IsFieldIn(sc.schema, model, f) && IsManyToMany(sc.schema, model, f)
    requires CleanSegment(f) && f in sc.drilldowns
    requires IsFieldIn(sc.schema, FieldType(sc.schema, model, f).value.target, "id")
    ensures CreateFieldsMap(sc, model, [f]) == Step(FieldTree(map[f := IdOnly]), Acc([], [f], None))
  {
    BareManyToManyAdd(sc, model, f);
    CreateOne(sc, model, f);
  }

  /** A request whose head is a field goes to the field branch. */
  lemma AddHeadField(sc: Scope, model: string, t: FieldTree, dot: string, related: string, acc: Acc)
    requires WellFormed(sc.schema) && IsFieldIn(sc.schema, model, Head(dot))
    ensures Head(dot) != "ALL"
    ensures Add(sc, model, t, dot, related, acc) == AddField(sc, model, Touch(t, Head(dot)), dot, related, acc)
  {
    FieldIsPlain(sc.schema, model, Head(dot));
  }

  lemma BareManyToManyAdd(sc: Scope, model: string, f: string)
    requires WellFormed(sc.schema) && IsFieldIn(sc.schema, model, f) && IsManyToMany(sc.schema, model, f)
    requires CleanSegment(f) && f in sc.drilldowns
    requires IsFieldIn(sc.schema, FieldType(sc.schema, model, f).value.target, "id")
    ensures Add(sc, model, Leaf, f, "", Fresh) == Step(FieldTree(map[f := IdOnly]), Acc([], [f], None))
  {
    FieldIsPlain(sc.schema, model, f);
    PlainMeasure(f);
    AddHeadField(sc, model, Leaf, f, "", Fresh);
    BareManyToManyField(sc, model, f);
  }

  lemma BareManyToManyField(sc: Scope, model: string, f: string)
    requires WellFormed(sc.schema) && IsFieldIn(sc.schema, model, f) && IsManyToMany(sc.schema, model, f)
    requires CleanSegment(f) && f in sc.drilldowns
    requires IsFieldIn(sc.schema, FieldType(sc.schema, model, f).value.target, "id")
    requires Head(f) == f && f != "ALL"
    ensures AddField(sc, model, Touch(Leaf, f), f, "", Fresh) == Step(FieldTree(map[f := IdOnly]), Acc([], [f], None))
  {
    var acc1 := Acc([], [f], None);
    ExtendTop(f);
    BareManyToManyId(sc, model, f, acc1);
    assert Fresh.(prefetches := Fresh.prefetches + [Extend("", f)]) == acc1;
    assert Touch(Leaf, f).children[f] == Leaf;
    AddFieldBareManyToMany(sc, model, Touch(Leaf, f), f, "", Fresh);
    TouchLeafUpdate(f, IdOnly);
  }

  /** A bare ManyToMany relation within the drilldowns is prefetched and gets the default `id` sub-request. */
  lemma AddFieldBareManyToMany(sc: Scope, model: string, t: FieldTree, f: string, related: string, acc: Acc)
    requires WellFormed(sc.schema) && IsFieldIn(sc.schema, model, f) && IsManyToMany(sc.schema, model, f)
    requires Head(f) == f && f != "ALL" && |SplitOnce(f, ".")| == 1 && f in t.children
    requires Extend(related, f) in sc.drilldowns
    ensures var acc1 := acc.(prefetches := acc.prefetches + [Extend(related, f)]);
      var r := AddId(sc, model, FieldType(sc.schema, model, f).value.target, t.children[f], f, acc1);
      AddField(sc, model, t, f, related, acc) == Step(FieldTree(t.children[f := r.tree]), r.acc)
  {
  }

  /** Touching an empty tree and then setting the same key leaves that key alone. */
  lemma TouchLeafUpdate(f: string, sub: FieldTree)
    ensures Touch(Leaf, f).children[f := sub] == map[f := sub]
  {
    var m := Touch(Leaf, f).children;
    assert m == map[f := Leaf];
    assert m[f := sub].Keys == {f};
  }

  /** The default `id` sub-request of a bare ManyToMany relation gives `{'id': {}}`. */
  lemma BareManyToManyId(sc: Scope, model: string, f: string, acc: Acc)
    requires WellFormed(sc.schema) && IsFieldIn(sc.schema, model, f) && IsManyToMany(sc.schema, model, f)
    requires CleanSegment(f)
    requires IsFieldIn(sc.schema, FieldType(sc.schema, model, f).value.target, "id")
    ensures |SplitOnce(f, ".")| == 1 && Head(f) == f
    ensures AddId(sc, model, FieldType(sc.schema, model, f).value.target, Leaf, f, acc) == Step(IdOnly, acc)
  {
    var target := FieldType(sc.schema, model, f).value.target;
    NamesArePlain(sc.schema, model);
    PlainMeasure(f);
    IdIsNotManyToMany(sc.schema, target);
    IdentifierSegment("id");
    AddPlain(sc, target, Leaf, "id", "", acc);
    assert Touch(Leaf, "id") == IdOnly;
  }

  /** A bare field that is not a ManyToMany field, requested into an empty subtree, becomes its only key. */
  lemma LeafOfPlain(sc: Scope, model: string, g: string, related: string, acc: Acc)
    requires WellFormed(sc.schema) && IsFieldIn(sc.schema, model, g) && !IsManyToMany(sc.schema, model, g)
    ensures Add(sc, model, Leaf, g, related, acc) == Step(FieldTree(map[g := Leaf]), acc)
  {
    NamesArePlain(sc.schema, model);
    IdentifierSegment(g);
    AddPlain(sc, model, Leaf, g, related, acc);
  }

  /** A request whose head is a field goes to the field branch. */
  lemma AddUnfold(sc: Scope, model: string, t: FieldTree, dot: string, related: string, acc: Acc)
    requires WellFormed(sc.schema) && Head(dot) != "ALL" && IsFieldIn(sc.schema, model, Head(dot))
    ensures Add(sc, model, t, dot, related, acc) == AddField(sc, model, Touch(t, Head(dot)), dot, related, acc)
  {
  }

  /** `f + "." + g` with plain names splits once into `f` and `g`. */
  lemma HeadOfDotted(f: string, g: string)
    requires Identifier(f) && Identifier(g)
    ensures SplitOnce(f + "." + g, ".") == [f, g] && Head(f + "." + g) == f
  {
    var dot := f + "." + g;
    IdentifierSegment(f);
    assert OccursAt(dot, ".", |f|) by {
      assert dot[|f|..|f| + 1] == ".";
    }
    forall j: nat | j < |f|
      ensures !OccursAt(dot, ".", j)
    {
      assert dot[j] == f[j];
      assert dot[j..j + 1] == [dot[j]];
    }
    assert Find(dot, ".") == Some(|f|);
    assert dot[..|f|] == f;
    assert dot[|f| + 1..] == g;
  }

  /** A name that is neither a field nor `ALL` sets the first error message and empties the tree. */
  lemma UnknownField(sc: Scope, model: string, dot: string)
    requires WellFormed(sc.schema) && Head(dot) != "ALL" && !IsFieldIn(sc.schema, model, Head(dot))
    ensures CreateFieldsMap(sc, model, [dot]) == Step(Leaf, Acc([], [], Some(NotAFieldMessage(dot))))
  {
    CreateOne(sc, model, dot);
  }

  /**
   A relation that is ManyToMany or has sub-fields requested, whose path is not
   one of the validated drilldowns, is an error and empties the tree.
   */
  lemma OutOfRange(sc: Scope, model: string, dot: string)
    requires WellFormed(sc.schema) && IsFieldIn(sc.schema, model, Head(dot)) && Head(dot) != "ALL"
    requires var k := FieldType(sc.schema, model, Head(dot)).value;
      k.IsRelation() && (k.ManyToMany? || |SplitOnce(dot, ".")| == 2)
    requires Extend("", Head(dot)) !in sc.drilldowns
    ensures CreateFieldsMap(sc, model, [dot]) ==
      Step(Leaf, Acc([], [], Some(NotAllowedMessage(Extend("", Head(dot))))))
  {
    var t1 := Touch(Leaf, Head(dot));
    assert AddField(sc, model, t1, dot, "", Fresh).acc == Acc([], [], Some(NotAllowedMessage(Extend("", Head(dot)))));
    CreateOne(sc, model, dot);
  }

  /** A sub-field of a field that is not a relation is an error and empties the tree. */
  lemma SubfieldOfScalar(sc: Scope, model: string, dot: string)
    requires WellFormed(sc.schema) && IsFieldIn(sc.schema, model, Head(dot)) && Head(dot) != "ALL"
    requires FieldType(sc.schema, model, Head(dot)).value.Scalar? && |SplitOnce(dot, ".")| == 2
    ensures CreateFieldsMap(sc, model, [dot]) == Step(Leaf, Acc([], [], Some(NoSubfieldsMessage(dot))))
  {
    var t1 := Touch(Leaf, Head(dot));
    assert AddField(sc, model, t1, dot, "", Fresh).acc == Acc([], [], Some(NoSubfieldsMessage(dot)));
    CreateOne(sc, model, dot);
  }

  /** At the top level a field is hidden from `ALL` by its own name. */
  lemma HideKeyTop(f: string)
    requires Identifier(f)
    ensures HideKey("", f) == f
  {
    assert Find("", "__") == None;
    assert Split("", "__") == [""];
    assert Dotted("") == "";
    IdentifierSegment(f);
    assert "" + "." + f == "." + f;
    StripLeadingRun(".", f, {'.'});
  }

  /**
   `fields=ALL` at the top level, when it succeeds, returns exactly the
   fields of the entity that are not hidden and are not ManyToMany relations
   outside the drilldowns.
   */
  lemma AllAtTop(sc: Scope, model: string)
    requires WellFormed(sc.schema)
    ensures var r := CreateFieldsMap(sc, model, ["ALL"]);
      r.acc.error.None? ==>
        forall f :: f in r.tree.children <==>
          && IsFieldIn(sc.schema, model, f)
          && f !in sc.hideFields
          && (IsManyToMany(sc.schema, model, f) ==> Extend("", f) in sc.drilldowns)
  {
    var names := Names(sc.schema, model);
    NamesArePlain(sc.schema, model);
    assert Head("ALL") == "ALL" by {
      IdentifierSegment("ALL");
    }
    assert AllRequestKeys(sc, model, ["ALL"]) == Eligible(sc, model, "", names) by {
      assert ["ALL"][1..] == [];
    }
    forall f | f in names
      ensures Admits(sc, model, "", f) <==>
        f !in sc.hideFields && (IsManyToMany(sc.schema, model, f) ==> Extend("", f) in sc.drilldowns)
    {
      var k :| 0 <= k < |names| && names[k] == f;
      HideKeyTop(f);
    }
  }

  // Which list a recorded path goes to.

  /** `p`, read as a `__` path from `root`, names a ForeignKey, OneToOne or RelatedObject field. */
  predicate SelectRelatedAt(s: Schema, root: string, p: string)
  {
    var k := KindAlong(s, root, Split(p, "__"));
    k.Some? && k.value.IsSelectRelated()
  }

  /** `p`, read as a `__` path from `root`, names a ManyToMany relation. */
  predicate ManyToManyAt(s: Schema, root: string, p: string)
  {
    var k := KindAlong(s, root, Split(p, "__"));
    k.Some? && k.value.ManyToMany?
  }

  /** From `a` to `b` the lists only grew, by ForeignKey, OneToOne or RelatedObject paths for `select_related` and ManyToMany paths for `prefetch_related`. */
  predicate Classified(s: Schema, root: string, a: Acc, b: Acc)
  {
    && a.selects <= b.selects
    && a.prefetches <= b.prefetches
    && (forall i :: |a.selects| <= i < |b.selects| ==> SelectRelatedAt(s, root, b.selects[i]))
    && (forall i :: |a.prefetches| <= i < |b.prefetches| ==> ManyToManyAt(s, root, b.prefetches[i]))
  }

  lemma ClassifiedTrans(s: Schema, root: string, a: Acc, b: Acc, c: Acc)
    requires Classified(s, root, a, b) && Classified(s, root, b, c)
    ensures Classified(s, root, a, c)
  {
    forall i | |a.selects| <= i < |c.selects|
      ensures SelectRelatedAt(s, root, c.selects[i])
    {
      if i < |b.selects| {
        assert c.selects[i] == b.selects[i];
      }
    }
    forall i | |a.prefetches| <= i < |c.prefetches|
      ensures ManyToManyAt(s, root, c.prefetches[i])
    {
      if i < |b.prefetches| {
        assert c.prefetches[i] == b.prefetches[i];
      }
    }
  }

  /** Where a request is compiled: `model` is what the relation names in `trail` lead to from `root`. */
  predicate OnTrail(s: Schema, root: string, trail: seq<string>, model: string)
  {
    Reaches(s, root, trail) == Some(model) && AllClean(trail) && NoSeparators(trail)
  }

  lemma {:induction false} AddClassifies(sc: Scope, root: string, trail: seq<string>, model: string,
                                         t: FieldTree, dot: string, acc: Acc)
    requires WellFormed(sc.schema) && LookupSafe(sc.schema) && OnTrail(sc.schema, root, trail, model)
    ensures Classified(sc.schema, root, acc, Add(sc, model, t, dot, Join(trail, "__"), acc).acc)
    decreases |Split(dot, ".")|, Phase(dot), 3
  {
    var fieldname := Head(dot);
    if fieldname == "ALL" {
      NamesArePlain(sc.schema, model);
      AddAllClassifies(sc, root, trail, model, t, Names(sc.schema, model), acc);
    } else if IsFieldIn(sc.schema, model, fieldname) {
      AddFieldClassifies(sc, root, trail, model, Touch(t, fieldname), dot, acc);
    }
  }

  lemma {:induction false} AddFieldClassifies(sc: Scope, root: string, trail: seq<string>, model: string,
                                              t: FieldTree, dot: string, acc: Acc)
    requires WellFormed(sc.schema) && LookupSafe(sc.schema) && OnTrail(sc.schema, root, trail, model)
    requires IsFieldIn(sc.schema, model, Head(dot)) && Head(dot) in t.children && Head(dot) != "ALL"
    ensures Classified(sc.schema, root, acc, AddField(sc, model, t, dot, Join(trail, "__"), acc).acc)
    decreases |Split(dot, ".")|, Phase(dot), 2
  {
    var kind := FieldType(sc.schema, model, Head(dot)).value;
    AddFieldRecords(sc, model, t, dot, Join(trail, "__"), acc);
    if kind.IsRelation() && (kind.ManyToMany? || |SplitOnce(dot, ".")| > 1) && Extend(Join(trail, "__"), Head(dot)) in sc.drilldowns {
      RecordedClassifies(sc, root, trail, model, t, dot, acc);
    }
  }

  /** The case of a recorded relation: the path added and everything below it are classified. */
  lemma {:induction false} RecordedClassifies(sc: Scope, root: string, trail: seq<string>, model: string,
                                              t: FieldTree, dot: string, acc: Acc)
    requires WellFormed(sc.schema) && LookupSafe(sc.schema) && OnTrail(sc.schema, root, trail, model)
    requires IsFieldIn(sc.schema, model, Head(dot)) && Head(dot) in t.children && Head(dot) != "ALL"
    requires var kind := FieldType(sc.schema, model, Head(dot)).value;
      kind.IsRelation() && (kind.ManyToMany? || |SplitOnce(dot, ".")| > 1) && Extend(Join(trail, "__"), Head(dot)) in sc.drilldowns
    ensures Classified(sc.schema, root, acc, AddField(sc, model, t, dot, Join(trail, "__"), acc).acc)
    decreases |Split(dot, ".")|, Phase(dot), 1
  {
    var pair := SplitOnce(dot, ".");
    var fieldname := Head(dot);
    var kind := FieldType(sc.schema, model, fieldname).value;
    var path := Extend(Join(trail, "__"), fieldname);
    var acc1 := if kind.IsSelectRelated() then acc.(selects := acc.selects + [path])
                else acc.(prefetches := acc.prefetches + [path]);
    var child := t.children[fieldname];
    AddFieldRecords(sc, model, t, dot, Join(trail, "__"), acc);
    RecordClassified(sc.schema, root, trail, model, fieldname, acc);
    if |pair| > 1 {
      AddClassifies(sc, root, trail + [fieldname], kind.target, child, pair[1], acc1);
      ClassifiedTrans(sc.schema, root, acc, acc1, Add(sc, kind.target, child, pair[1], path, acc1).acc);
    } else {
      AddIdKeepsAcc(sc, model, kind.target, child, dot, acc1);
    }
  }

  /**
   What `add_to_fields_map` records for a field: a relation within the
   drilldowns that is ManyToMany or has sub-fields is recorded and descended
   into; anything else records nothing.
   */
  lemma AddFieldRecords(sc: Scope, model: string, t: FieldTree, dot: string, related: string, acc: Acc)
    requires WellFormed(sc.schema)
    requires IsFieldIn(sc.schema, model, Head(dot)) && Head(dot) in t.children && Head(dot) != "ALL"
    ensures var pair := SplitOnce(dot, ".");
      var fieldname := Head(dot);
      var kind := FieldType(sc.schema, model, fieldname).value;
      var path := Extend(related, fieldname);
      var r := AddField(sc, model, t, dot, related, acc);
      if kind.IsRelation() && (kind.ManyToMany? || |pair| > 1) && path in sc.drilldowns then
        var acc1 := if kind.IsSelectRelated() then acc.(selects := acc.selects + [path])
                    else acc.(prefetches := acc.prefetches + [path]);
        if |pair| > 1 then r.acc == Add(sc, kind.target, t.children[fieldname], pair[1], path, acc1).acc
        else
          && |SplitOnce(dot, ".")| == 1 && IsManyToMany(sc.schema, model, Head(dot))
          && r.acc == AddId(sc, model, kind.target, t.children[fieldname], dot, acc1).acc
      else r.acc.selects == acc.selects && r.acc.prefetches == acc.prefetches
  {
  }

  /** Recording a relation on the trail adds a path that reads back as that relation's kind. */
  lemma RecordClassified(s: Schema, root: string, trail: seq<string>, model: string, fieldname: string, acc: Acc)
    requires LookupSafe(s) && OnTrail(s, root, trail, model) && IsFieldIn(s, model, fieldname)
    requires FieldType(s, model, fieldname).value.IsRelation()
    ensures var kind := FieldType(s, model, fieldname).value;
      var path := Extend(Join(trail, "__"), fieldname);
      var acc1 := if kind.IsSelectRelated() then acc.(selects := acc.selects + [path])
                  else acc.(prefetches := acc.prefetches + [path]);
      && OnTrail(s, root, trail + [fieldname], kind.target)
      && path == Join(trail + [fieldname], "__")
      && Classified(s, root, acc, acc1)
  {
    var kind := FieldType(s, model, fieldname).value;
    var path := Extend(Join(trail, "__"), fieldname);
    ExtendTrail(s, root, trail, model, fieldname);
    if kind.IsSelectRelated() {
      assert SelectRelatedAt(s, root, path);
      SelectClassified(s, root, acc, path);
    } else {
      assert ManyToManyAt(s, root, path);
      PrefetchClassified(s, root, acc, path);
    }
  }

  lemma SelectClassified(s: Schema, root: string, acc: Acc, path: string)
    requires SelectRelatedAt(s, root, path)
    ensures Classified(s, root, acc, acc.(selects := acc.selects + [path]))
  {
  }

  lemma PrefetchClassified(s: Schema, root: string, acc: Acc, path: string)
    requires ManyToManyAt(s, root, path)
    ensures Classified(s, root, acc, acc.(prefetches := acc.prefetches + [path]))
  {
  }

  /** The default `id` sub-request records nothing. */
  lemma AddIdKeepsAcc(sc: Scope, model: string, target: string, child: FieldTree, dot: string, acc: Acc)
    requires WellFormed(sc.schema)
    requires |SplitOnce(dot, ".")| == 1 && IsManyToMany(sc.schema, model, Head(dot))
    ensures var r := AddId(sc, model, target, child, dot, acc);
      r.acc.selects == acc.selects && r.acc.prefetches == acc.prefetches
  {
    IdIsNotManyToMany(sc.schema, target);
    IdentifierSegment("id");
    AddPlain(sc, target, child, "id", "", acc);
  }

  lemma {:induction false} AddAllClassifies(sc: Scope, root: string, trail: seq<string>, model: string,
                                            t: FieldTree, names: seq<string>, acc: Acc)
    requires WellFormed(sc.schema) && LookupSafe(sc.schema) && OnTrail(sc.schema, root, trail, model)
    requires forall k :: 0 <= k < |names| ==> PlainName(names[k])
    ensures Classified(sc.schema, root, acc, AddAll(sc, model, t, names, Join(trail, "__"), acc).acc)
    decreases 1, 1, |names| + 3
  {
    var related := Join(trail, "__");
    if |names| > 0 {
      var fname := names[0];
      PlainMeasure(fname);
      var r := AddOne(sc, model, t, fname, related, acc);
      if Admits(sc, model, related, fname) {
        AddClassifies(sc, root, trail, model, t, fname, acc);
      }
      AddAllClassifies(sc, root, trail, model, r.tree, names[1..], r.acc);
      ClassifiedTrans(sc.schema, root, acc, r.acc, AddAll(sc, model, r.tree, names[1..], related, r.acc).acc);
    }
  }

  lemma {:induction false} AddEachClassifies(sc: Scope, root: string, t: FieldTree, fields: seq<string>, acc: Acc)
    requires WellFormed(sc.schema) && LookupSafe(sc.schema)
    ensures Classified(sc.schema, root, acc, AddEach(sc, root, t, fields, acc).acc)
    decreases |fields|
  {
    if |fields| > 0 {
      assert Join([], "__") == "";
      assert OnTrail(sc.schema, root, [], root);
      var r1 := Add(sc, root, t, fields[0], "", acc);
      AddClassifies(sc, root, [], root, t, fields[0], acc);
      AddEachClassifies(sc, root, r1.tree, fields[1..], r1.acc);
      ClassifiedTrans(sc.schema, root, acc, r1.acc, AddEach(sc, root, r1.tree, fields[1..], r1.acc).acc);
    }
  }

  /**
   When the schema's names are safe in `__` paths, every path recorded for
   `select_related` names a ForeignKey, OneToOne or RelatedObject field, and
   every path recorded for `prefetch_related` a ManyToMany field.
   */
  lemma RelatedsClassified(sc: Scope, root: string, fields: seq<string>)
    requires WellFormed(sc.schema) && LookupSafe(sc.schema)
    ensures var r := CreateFieldsMap(sc, root, fields);
      && (forall i :: 0 <= i < |r.acc.selects| ==> SelectRelatedAt(sc.schema, root, r.acc.selects[i]))
      && (forall i :: 0 <= i < |r.acc.prefetches| ==> ManyToManyAt(sc.schema, root, r.acc.prefetches[i]))
  {
    AddEachClassifies(sc, root, Leaf, fields, Fresh);
  }

  // When the compiler fails: a reference definition, one request at a time.

  /**
   Every ManyToMany field the `ALL` expansion takes leads to an entity with an
   `id` field, which its default sub-request names.
   */
  predicate AllTargetsHaveId(sc: Scope, model: string, related: string)
  {
    var names := Names(sc.schema, model);
    forall k :: 0 <= k < |names| && Admits(sc, model, related, names[k]) && IsManyToMany(sc.schema, model, names[k]) ==>
      IsFieldIn(sc.schema, FieldType(sc.schema, model, names[k]).value.target, "id")
  }

  /**
   A request the compiler accepts, read off the dotted segments: the head
   is `ALL` or a field; a ManyToMany field, or a relation given sub-fields,
   must have its path among the drilldowns; sub-fields are allowed only
   under a relation and are checked in its target; a bare ManyToMany field's
   target, and for `ALL` that of every ManyToMany field it takes, needs an
   `id` field.
   */
  predicate RequestOk(sc: Scope, model: string, dot: string, related: string)
    decreases |Split(dot, ".")|
  {
    var f := Head(dot);
    var pair := SplitOnce(dot, ".");
    if f == "ALL" then AllTargetsHaveId(sc, model, related)
    else if !IsFieldIn(sc.schema, model, f) then false
    else
      var kind := FieldType(sc.schema, model, f).value;
      if kind.IsRelation() && (kind.ManyToMany? || |pair| > 1) then
        && Extend(related, f) in sc.drilldowns
        && if |pair| > 1 then RequestOk(sc, kind.target, pair[1], Extend(related, f))
           else IsFieldIn(sc.schema, kind.target, "id")
      else |pair| == 1
  }

  /** One request leaves the error unset exactly when none was set before and the request is accepted. */
  lemma {:induction false} AddError(sc: Scope, model: string, t: FieldTree, dot: string, related: string, acc: Acc)
    requires WellFormed(sc.schema)
    ensures Add(sc, model, t, dot, related, acc).acc.error.None? <==> acc.error.None? && RequestOk(sc, model, dot, related)
    decreases |Split(dot, ".")|, Phase(dot), 2
  {
    var fieldname := Head(dot);
    if fieldname == "ALL" {
      NamesArePlain(sc.schema, model);
      AddAllError(sc, model, t, Names(sc.schema, model), related, acc);
    } else if IsFieldIn(sc.schema, model, fieldname) {
      AddFieldError(sc, model, Touch(t, fieldname), dot, related, acc);
    }
  }

  lemma {:induction false} AddFieldError(sc: Scope, model: string, t: FieldTree, dot: string, related: string, acc: Acc)
    requires WellFormed(sc.schema)
    requires IsFieldIn(sc.schema, model, Head(dot)) && Head(dot) in t.children && Head(dot) != "ALL"
    ensures AddField(sc, model, t, dot, related, acc).acc.error.None? <==> acc.error.None? && RequestOk(sc, model, dot, related)
    decreases |Split(dot, ".")|, Phase(dot), 1
  {
    var pair := SplitOnce(dot, ".");
    var fieldname := Head(dot);
    var kind := FieldType(sc.schema, model, fieldname).value;
    var path := Extend(related, fieldname);
    if kind.IsRelation() && (kind.ManyToMany? || |pair| > 1) && path in sc.drilldowns {
      var acc1 := if kind.IsSelectRelated() then acc.(selects := acc.selects + [path])
                  else acc.(prefetches := acc.prefetches + [path]);
      var child := t.children[fieldname];
      if |pair| > 1 {
        AddError(sc, kind.target, child, pair[1], path, acc1);
      } else {
        AddIdError(sc, model, kind.target, child, dot, acc1);
      }
    }
  }

  /** The default `id` sub-request fails exactly when the target has no `id` field. */
  lemma AddIdError(sc: Scope, model: string, target: string, child: FieldTree, dot: string, acc: Acc)
    requires WellFormed(sc.schema)
    requires |SplitOnce(dot, ".")| == 1 && IsManyToMany(sc.schema, model, Head(dot))
    ensures AddId(sc, model, target, child, dot, acc).acc.error.None? <==> acc.error.None? && IsFieldIn(sc.schema, target, "id")
  {
    IdIsNotManyToMany(sc.schema, target);
    IdentifierSegment("id");
    AddPlain(sc, target, child, "id", "", acc);
  }

  /** The `id` step that ends without an error leaves `id` among the keys. */
  lemma AddIdKeeps(sc: Scope, model: string, target: string, child: FieldTree, dot: string, acc: Acc)
    requires WellFormed(sc.schema)
    requires |SplitOnce(dot, ".")| == 1 && IsManyToMany(sc.schema, model, Head(dot))
    requires AddId(sc, model, target, child, dot, acc).acc.error.None?
    ensures "id" in AddId(sc, model, target, child, dot, acc).tree.children
  {
    IdIsNotManyToMany(sc.schema, target);
    IdentifierSegment("id");
    AddPlain(sc, target, child, "id", "", acc);
  }

  /** One name of an `ALL` expansion fails only when it is a taken ManyToMany field whose target has no `id`. */
  lemma {:induction false} AddOneError(sc: Scope, model: string, t: FieldTree, fname: string, related: string, acc: Acc)
    requires WellFormed(sc.schema) && PlainName(fname) && IsFieldIn(sc.schema, model, fname)
    ensures AddOne(sc, model, t, fname, related, acc).acc.error.None? <==>
      && acc.error.None?
      && (Admits(sc, model, related, fname) && IsManyToMany(sc.schema, model, fname) ==>
            IsFieldIn(sc.schema, FieldType(sc.schema, model, fname).value.target, "id"))
    decreases 1, 1, 3
  {
    PlainMeasure(fname);
    if Admits(sc, model, related, fname) {
      AddError(sc, model, t, fname, related, acc);
    }
  }

  lemma {:induction false} AddAllError(sc: Scope, model: string, t: FieldTree, names: seq<string>, related: string, acc: Acc)
    requires WellFormed(sc.schema)
    requires forall k :: 0 <= k < |names| ==> PlainName(names[k]) && IsFieldIn(sc.schema, model, names[k])
    ensures AddAll(sc, model, t, names, related, acc).acc.error.None? <==>
      && acc.error.None?
      && forall k :: 0 <= k < |names| && Admits(sc, model, related, names[k]) && IsManyToMany(sc.schema, model, names[k]) ==>
           IsFieldIn(sc.schema, FieldType(sc.schema, model, names[k]).value.target, "id")
    decreases 1, 1, |names| + 3
  {
    if |names| > 0 {
      var fname := names[0];
      var r := AddOne(sc, model, t, fname, related, acc);
      AddOneError(sc, model, t, fname, related, acc);
      AddAllError(sc, model, r.tree, names[1..], related, r.acc);
      assert forall k :: 1 <= k < |names| ==> names[k] == names[1..][k - 1];
    }
  }

  /** The loop over the requests ends without an error exactly when it started without one and every request is accepted. */
  lemma {:induction false} AddEachError(sc: Scope, model: string, t: FieldTree, fields: seq<string>, acc: Acc)
    requires WellFormed(sc.schema)
    ensures AddEach(sc, model, t, fields, acc).acc.error.None? <==>
      acc.error.None? && forall i :: 0 <= i < |fields| ==> RequestOk(sc, model, fields[i], "")
    decreases |fields|
  {
    if |fields| > 0 {
      var r1 := Add(sc, model, t, fields[0], "", acc);
      assert AddEach(sc, model, t, fields, acc) == AddEach(sc, model, r1.tree, fields[1..], r1.acc);
      AddError(sc, model, t, fields[0], "", acc);
      AddEachError(sc, model, r1.tree, fields[1..], r1.acc);
      EveryCons(fields, d => RequestOk(sc, model, d, ""));
    }
  }

  /** A property of every request is the property of the first and of every later one. */
  lemma EveryCons(fields: seq<string>, q: string -> bool)
    requires |fields| > 0
    ensures (forall i :: 0 <= i < |fields| ==> q(fields[i])) <==>
      q(fields[0]) && forall i :: 0 <= i < |fields[1..]| ==> q(fields[1..][i])
  {
    assert forall i :: 1 <= i < |fields| ==> fields[i] == fields[1..][i - 1];
  }

  /**
   `_create_fields_map` fails exactly when one of the requests is refused,
   wherever in its dotted path the refusal happens; an error in one request
   does not depend on the others.
   */
  lemma FieldsMapFails(sc: Scope, model: string, fields: seq<string>)
    requires WellFormed(sc.schema)
    ensures CreateFieldsMap(sc, model, fields).acc.error.None? <==>
      forall i :: 0 <= i < |fields| ==> RequestOk(sc, model, fields[i], "")
  {
    AddEachError(sc, model, Leaf, fields, Fresh);
  }

  // What a successful request leaves in the tree, at every depth.

  /** `u` has every key of `t`, at every depth. */
  predicate Includes(t: FieldTree, u: FieldTree)
    decreases t
  {
    forall k :: k in t.children ==> k in u.children && Includes(t.children[k], u.children[k])
  }

  lemma {:induction false} IncludesRefl(t: FieldTree)
    ensures Includes(t, t)
    decreases t
  {
    forall k | k in t.children
      ensures Includes(t.children[k], t.children[k])
    {
      IncludesRefl(t.children[k]);
    }
  }

  lemma {:induction false} IncludesTrans(t: FieldTree, u: FieldTree, v: FieldTree)
    requires Includes(t, u) && Includes(u, v)
    ensures Includes(t, v)
    decreases t
  {
    forall k | k in t.children
      ensures k in v.children && Includes(t.children[k], v.children[k])
    {
      IncludesTrans(t.children[k], u.children[k], v.children[k]);
    }
  }

  /** Replacing the subtree under an existing key by a larger one keeps everything. */
  lemma IncludesUpdate(t: FieldTree, k: string, sub: FieldTree)
    requires k in t.children && Includes(t.children[k], sub)
    ensures Includes(t, FieldTree(t.children[k := sub]))
  {
    forall j | j in t.children && j != k
      ensures Includes(t.children[j], t.children[j])
    {
      IncludesRefl(t.children[j]);
    }
  }

  lemma TouchIncludes(t: FieldTree, name: string)
    ensures Includes(t, Touch(t, name))
  {
    IncludesRefl(t);
    if name !in t.children {
      forall j | j in t.children
        ensures Includes(t.children[j], t.children[j])
      {
        IncludesRefl(t.children[j]);
      }
    }
  }

  /** A request never removes anything from the tree. */
  lemma {:induction false} AddIncludes(sc: Scope, model: string, t: FieldTree, dot: string, related: string, acc: Acc)
    requires WellFormed(sc.schema)
    ensures Includes(t, Add(sc, model, t, dot, related, acc).tree)
    decreases |Split(dot, ".")|, Phase(dot), 2
  {
    var fieldname := Head(dot);
    if fieldname == "ALL" {
      NamesArePlain(sc.schema, model);
      AddAllIncludes(sc, model, t, Names(sc.schema, model), related, acc);
    } else if IsFieldIn(sc.schema, model, fieldname) {
      TouchIncludes(t, fieldname);
      AddFieldIncludes(sc, model, Touch(t, fieldname), dot, related, acc);
      IncludesTrans(t, Touch(t, fieldname), AddField(sc, model, Touch(t, fieldname), dot, related, acc).tree);
    } else {
      IncludesRefl(t);
    }
  }

  lemma {:induction false} AddFieldIncludes(sc: Scope, model: string, t: FieldTree, dot: string, related: string, acc: Acc)
    requires WellFormed(sc.schema)
    requires IsFieldIn(sc.schema, model, Head(dot)) && Head(dot) in t.children && Head(dot) != "ALL"
    ensures Includes(t, AddField(sc, model, t, dot, related, acc).tree)
    decreases |Split(dot, ".")|, Phase(dot), 1
  {
    var pair := SplitOnce(dot, ".");
    var fieldname := Head(dot);
    var kind := FieldType(sc.schema, model, fieldname).value;
    var path := Extend(related, fieldname);
    if kind.IsRelation() && (kind.ManyToMany? || |pair| > 1) && path in sc.drilldowns {
      var acc1 := if kind.IsSelectRelated() then acc.(selects := acc.selects + [path])
                  else acc.(prefetches := acc.prefetches + [path]);
      var child := t.children[fieldname];
      if |pair| > 1 {
        AddIncludes(sc, kind.target, child, pair[1], path, acc1);
        IncludesUpdate(t, fieldname, Add(sc, kind.target, child, pair[1], path, acc1).tree);
      } else {
        AddIdIncludes(sc, model, kind.target, child, dot, acc1);
        IncludesUpdate(t, fieldname, AddId(sc, model, kind.target, child, dot, acc1).tree);
      }
    } else {
      IncludesRefl(t);
    }
  }

  lemma AddIdIncludes(sc: Scope, model: string, target: string, child: FieldTree, dot: string, acc: Acc)
    requires WellFormed(sc.schema)
    requires |SplitOnce(dot, ".")| == 1 && IsManyToMany(sc.schema, model, Head(dot))
    ensures Includes(child, AddId(sc, model, target, child, dot, acc).tree)
  {
    IdIsNotManyToMany(sc.schema, target);
    IdentifierSegment("id");
    AddPlain(sc, target, child, "id", "", acc);
    TouchIncludes(child, "id");
    IncludesRefl(child);
  }

  lemma {:induction false} AddAllIncludes(sc: Scope, model: string, t: FieldTree, names: seq<string>, related: string, acc: Acc)
    requires WellFormed(sc.schema)
    requires forall k :: 0 <= k < |names| ==> PlainName(names[k])
    ensures Includes(t, AddAll(sc, model, t, names, related, acc).tree)
    decreases 1, 1, |names| + 3
  {
    if |names| == 0 {
      IncludesRefl(t);
    } else {
      var fname := names[0];
      PlainMeasure(fname);
      var r := AddOne(sc, model, t, fname, related, acc);
      if Admits(sc, model, related, fname) {
        AddIncludes(sc, model, t, fname, related, acc);
      } else {
        IncludesRefl(t);
      }
      AddAllIncludes(sc, model, r.tree, names[1..], related, r.acc);
      IncludesTrans(t, r.tree, AddAll(sc, model, r.tree, names[1..], related, r.acc).tree);
    }
  }

  lemma {:induction false} AddEachIncludes(sc: Scope, model: string, t: FieldTree, fields: seq<string>, acc: Acc)
    requires WellFormed(sc.schema)
    ensures Includes(t, AddEach(sc, model, t, fields, acc).tree)
    decreases |fields|
  {
    if |fields| == 0 {
      IncludesRefl(t);
    } else {
      var r1 := Add(sc, model, t, fields[0], "", acc);
      AddIncludes(sc, model, t, fields[0], "", acc);
      AddEachIncludes(sc, model, r1.tree, fields[1..], r1.acc);
      IncludesTrans(t, r1.tree, AddEach(sc, model, r1.tree, fields[1..], r1.acc).tree);
    }
  }

  /**
   The tree holds what a request asks for: its head as a key (for `ALL`,
   every name the expansion takes), the default `id` under a bare ManyToMany
   field, and under a relation given sub-fields the rest of the request,
   held in the same sense in the relation's target.
   */
  predicate Holds(sc: Scope, model: string, t: FieldTree, dot: string, related: string)
    decreases |Split(dot, ".")|
  {
    var f := Head(dot);
    var pair := SplitOnce(dot, ".");
    if f == "ALL" then Eligible(sc, model, related, Names(sc.schema, model)) <= t.children.Keys
    else
      && f in t.children
      && (IsManyToMany(sc.schema, model, f) && |pair| == 1 ==> "id" in t.children[f].children)
      && (RelatedModel(sc.schema, model, f).Some? && |pair| > 1 ==>
            Holds(sc, RelatedModel(sc.schema, model, f).value, t.children[f], pair[1], Extend(related, f)))
  }

  /** What a tree holds, a larger tree holds too. */
  lemma {:induction false} HoldsIncludes(sc: Scope, model: string, t: FieldTree, u: FieldTree, dot: string, related: string)
    requires Holds(sc, model, t, dot, related) && Includes(t, u)
    ensures Holds(sc, model, u, dot, related)
    decreases |Split(dot, ".")|
  {
    var f := Head(dot);
    var pair := SplitOnce(dot, ".");
    if f != "ALL" && RelatedModel(sc.schema, model, f).Some? && |pair| > 1 {
      HoldsIncludes(sc, RelatedModel(sc.schema, model, f).value, t.children[f], u.children[f], pair[1], Extend(related, f));
    }
  }

  /** A request that sets no error leaves in the tree what it asks for. */
  lemma {:induction false} AddHolds(sc: Scope, model: string, t: FieldTree, dot: string, related: string, acc: Acc)
    requires WellFormed(sc.schema)
    requires Add(sc, model, t, dot, related, acc).acc.error.None?
    ensures Holds(sc, model, Add(sc, model, t, dot, related, acc).tree, dot, related)
    decreases |Split(dot, ".")|
  {
    var fieldname := Head(dot);
    if fieldname == "ALL" {
      NamesArePlain(sc.schema, model);
      AddAllKeys(sc, model, t, Names(sc.schema, model), related, acc);
    } else {
      AddFieldHolds(sc, model, Touch(t, fieldname), dot, related, acc);
    }
  }

  lemma {:induction false} AddFieldHolds(sc: Scope, model: string, t: FieldTree, dot: string, related: string, acc: Acc)
    requires WellFormed(sc.schema)
    requires IsFieldIn(sc.schema, model, Head(dot)) && Head(dot) in t.children && Head(dot) != "ALL"
    requires AddField(sc, model, t, dot, related, acc).acc.error.None?
    ensures Holds(sc, model, AddField(sc, model, t, dot, related, acc).tree, dot, related)
    decreases |Split(dot, ".")|, 0
  {
    var pair := SplitOnce(dot, ".");
    var fieldname := Head(dot);
    var kind := FieldType(sc.schema, model, fieldname).value;
    var path := Extend(related, fieldname);
    if kind.IsRelation() && (kind.ManyToMany? || |pair| > 1) && path in sc.drilldowns {
      var acc1 := if kind.IsSelectRelated() then acc.(selects := acc.selects + [path])
                  else acc.(prefetches := acc.prefetches + [path]);
      var child := t.children[fieldname];
      var r := if |pair| > 1 then Add(sc, kind.target, child, pair[1], path, acc1)
               else AddId(sc, model, kind.target, child, dot, acc1);
      assert AddField(sc, model, t, dot, related, acc).tree == FieldTree(t.children[fieldname := r.tree]);
      if |pair| > 1 {
        AddHolds(sc, kind.target, child, pair[1], path, acc1);
      } else {
        AddIdKeeps(sc, model, kind.target, child, dot, acc1);
      }
    }
  }

  /** Each request of a loop that ends without an error is held by the final tree. */
  lemma {:induction false} AddEachHolds(sc: Scope, model: string, t: FieldTree, fields: seq<string>, acc: Acc)
    requires WellFormed(sc.schema)
    requires AddEach(sc, model, t, fields, acc).acc.error.None?
    ensures forall i :: 0 <= i < |fields| ==> Holds(sc, model, AddEach(sc, model, t, fields, acc).tree, fields[i], "")
    decreases |fields|
  {
    if |fields| > 0 {
      var r1 := Add(sc, model, t, fields[0], "", acc);
      var r := AddEach(sc, model, r1.tree, fields[1..], r1.acc);
      AddEachError(sc, model, r1.tree, fields[1..], r1.acc);
      AddHolds(sc, model, t, fields[0], "", acc);
      AddEachIncludes(sc, model, r1.tree, fields[1..], r1.acc);
      HoldsIncludes(sc, model, r1.tree, r.tree, fields[0], "");
      assert AddEach(sc, model, t, fields, acc) == r;
      AddEachHolds(sc, model, r1.tree, fields[1..], r1.acc);
      EveryCons(fields, d => Holds(sc, model, r.tree, d, ""));
    }
  }

  /**
   A fields map built without an error holds every request at every depth:
   `fields=client.profile.first_name` puts `first_name` under `profile`
   under `client`.
   */
  lemma FieldsMapHolds(sc: Scope, model: string, fields: seq<string>)
    requires WellFormed(sc.schema)
    ensures var r := CreateFieldsMap(sc, model, fields);
      r.acc.error.None? ==> forall i :: 0 <= i < |fields| ==> Holds(sc, model, r.tree, fields[i], "")
  {
    if CreateFieldsMap(sc, model, fields).acc.error.None? {
      AddEachHolds(sc, model, Leaf, fields, Fresh);
    }
  }

  // What the compiled tree holds is bounded by the requests.

  /** Some request at this level is `ALL` (whatever follows it, which the expansion ignores). */
  predicate HasAll(reqs: set<string>)
  {
    exists d :: d in reqs && Head(d) == "ALL"
  }

  /** The keys the requests at one level may add: their heads, and every name an `ALL` takes. */
  function Wanted(sc: Scope, model: string, reqs: set<string>, related: string): set<string>
  {
    (set d | d in reqs && Head(d) != "ALL" :: Head(d))
    + (if HasAll(reqs) then Eligible(sc, model, related, Names(sc.schema, model)) else {})
  }

  /** The ManyToMany field `k` is asked for bare, by name or by `ALL`, and so gets the default `id`. */
  predicate WantsId(sc: Scope, model: string, reqs: set<string>, k: string, related: string)
  {
    && IsManyToMany(sc.schema, model, k)
    && ((exists d :: d in reqs && Head(d) == k && |SplitOnce(d, ".")| == 1)
        || (HasAll(reqs) && k in Eligible(sc, model, related, Names(sc.schema, model))))
  }

  /** The requests one level down, under the key `k`: the rests of the requests headed by `k`, and the default `id`. */
  function SubRequests(sc: Scope, model: string, reqs: set<string>, k: string, related: string): set<string>
  {
    (set d | d in reqs && Head(d) == k && |SplitOnce(d, ".")| > 1 :: SplitOnce(d, ".")[1])
    + (if WantsId(sc, model, reqs, k, related) then {"id"} else {})
  }

  /**
   The partner of `Holds`: the tree holds nothing the requests do not ask
   for. Every key, at every depth, is the head of a request, a name an
   `ALL` takes, or the default `id` under a bare ManyToMany field; below a
   relation the same holds for the requests that continue under it.
   */
  predicate Bounded(sc: Scope, model: string, t: FieldTree, reqs: set<string>, related: string)
    decreases t
  {
    forall k :: k in t.children ==>
      && k in Wanted(sc, model, reqs, related)
      && (RelatedModel(sc.schema, model, k).Some? ==>
            Bounded(sc, RelatedModel(sc.schema, model, k).value, t.children[k],
                    SubRequests(sc, model, reqs, k, related), Extend(related, k)))
  }

  /** The requests account for one request `dot` when everything it may add is among what they want. */
  predicate Accounts(sc: Scope, model: string, reqs: set<string>, dot: string, related: string)
  {
    var f := Head(dot);
    var pair := SplitOnce(dot, ".");
    if f == "ALL" then HasAll(reqs)
    else
      && f in Wanted(sc, model, reqs, related)
      && (|pair| > 1 ==> pair[1] in SubRequests(sc, model, reqs, f, related))
      && (|pair| == 1 && IsManyToMany(sc.schema, model, f) ==> WantsId(sc, model, reqs, f, related))
  }

  lemma AccountsMember(sc: Scope, model: string, reqs: set<string>, dot: string, related: string)
    requires dot in reqs
    ensures Accounts(sc, model, reqs, dot, related)
  {
    var f := Head(dot);
    var pair := SplitOnce(dot, ".");
    if f != "ALL" {
      assert f in (set d | d in reqs && Head(d) != "ALL" :: Head(d));
      if |pair| > 1 {
        assert pair[1] in (set d | d in reqs && Head(d) == f && |SplitOnce(d, ".")| > 1 :: SplitOnce(d, ".")[1]);
      }
    }
  }

  /** More requests want at least as much, one level down too. */
  lemma WantedMono(sc: Scope, model: string, r1: set<string>, r2: set<string>, related: string)
    requires r1 <= r2
    ensures Wanted(sc, model, r1, related) <= Wanted(sc, model, r2, related)
    ensures forall k :: SubRequests(sc, model, r1, k, related) <= SubRequests(sc, model, r2, k, related)
  {
    forall k
      ensures SubRequests(sc, model, r1, k, related) <= SubRequests(sc, model, r2, k, related)
    {
      assert WantsId(sc, model, r1, k, related) ==> WantsId(sc, model, r2, k, related);
    }
  }

  /** A tree within what some requests want is within what wants at least as much. */
  lemma {:induction false} BoundedWeaken(sc: Scope, model: string, t: FieldTree, r1: set<string>, r2: set<string>, related: string)
    requires Bounded(sc, model, t, r1, related)
    requires Wanted(sc, model, r1, related) <= Wanted(sc, model, r2, related)
    requires forall k :: k in t.children ==> SubRequests(sc, model, r1, k, related) <= SubRequests(sc, model, r2, k, related)
    ensures Bounded(sc, model, t, r2, related)
    decreases t
  {
    forall k | k in t.children && RelatedModel(sc.schema, model, k).Some?
      ensures Bounded(sc, RelatedModel(sc.schema, model, k).value, t.children[k],
                      SubRequests(sc, model, r2, k, related), Extend(related, k))
    {
      var next := RelatedModel(sc.schema, model, k).value;
      var s1 := SubRequests(sc, model, r1, k, related);
      var s2 := SubRequests(sc, model, r2, k, related);
      WantedMono(sc, next, s1, s2, Extend(related, k));
      BoundedWeaken(sc, next, t.children[k], s1, s2, Extend(related, k));
    }
  }

  /** Adding a wanted key as `{}` stays within the requests. */
  lemma BoundedTouch(sc: Scope, model: string, t: FieldTree, reqs: set<string>, related: string, k: string)
    requires Bounded(sc, model, t, reqs, related) && k in Wanted(sc, model, reqs, related)
    ensures Bounded(sc, model, Touch(t, k), reqs, related)
  {
    assert forall r, x :: Bounded(sc, x, Leaf, r, Extend(related, k));
  }

  /** Setting a wanted key to a subtree within its sub-requests stays within the requests. */
  lemma BoundedUpdate(sc: Scope, model: string, t: FieldTree, reqs: set<string>, related: string, k: string, u: FieldTree)
    requires Bounded(sc, model, t, reqs, related) && k in Wanted(sc, model, reqs, related)
    requires RelatedModel(sc.schema, model, k).Some? ==>
      Bounded(sc, RelatedModel(sc.schema, model, k).value, u, SubRequests(sc, model, reqs, k, related), Extend(related, k))
    ensures Bounded(sc, model, FieldTree(t.children[k := u]), reqs, related)
  {
  }

  /** The default `id` request touches `id` in the relation's subtree, or leaves it alone. */
  lemma AddIdTree(sc: Scope, model: string, target: string, child: FieldTree, dot: string, acc: Acc)
    requires WellFormed(sc.schema)
    requires |SplitOnce(dot, ".")| == 1 && IsManyToMany(sc.schema, model, Head(dot))
    ensures AddId(sc, model, target, child, dot, acc).tree == Touch(child, "id")
         || AddId(sc, model, target, child, dot, acc).tree == child
  {
    IdIsNotManyToMany(sc.schema, target);
    IdentifierSegment("id");
    AddPlain(sc, target, child, "id", "", acc);
  }

  /** The default `id` of a bare ManyToMany field stays within its sub-requests, which hold `id`. */
  lemma AddIdBounded(sc: Scope, model: string, target: string, child: FieldTree, dot: string, acc: Acc, sub: set<string>, path: string)
    requires WellFormed(sc.schema)
    requires |SplitOnce(dot, ".")| == 1 && IsManyToMany(sc.schema, model, Head(dot))
    requires Bounded(sc, target, child, sub, path) && "id" in sub
    ensures Bounded(sc, target, AddId(sc, model, target, child, dot, acc).tree, sub, path)
  {
    PlainMeasure("id");
    assert "id" in (set d | d in sub && Head(d) != "ALL" :: Head(d));
    BoundedTouch(sc, target, child, sub, path, "id");
    AddIdTree(sc, model, target, child, dot, acc);
  }

  /** A request the requests account for keeps the tree within them. */
  lemma {:induction false} AddBounded(sc: Scope, model: string, t: FieldTree, dot: string, related: string, acc: Acc, reqs: set<string>)
    requires WellFormed(sc.schema)
    requires Bounded(sc, model, t, reqs, related) && Accounts(sc, model, reqs, dot, related)
    ensures Bounded(sc, model, Add(sc, model, t, dot, related, acc).tree, reqs, related)
    decreases |Split(dot, ".")|, Phase(dot), 2
  {
    var fieldname := Head(dot);
    if fieldname == "ALL" {
      NamesArePlain(sc.schema, model);
      AddAllBounded(sc, model, t, Names(sc.schema, model), related, acc, reqs);
    } else if IsFieldIn(sc.schema, model, fieldname) {
      BoundedTouch(sc, model, t, reqs, related, fieldname);
      AddFieldBounded(sc, model, Touch(t, fieldname), dot, related, acc, reqs);
    }
  }

  lemma {:induction false} AddFieldBounded(sc: Scope, model: string, t: FieldTree, dot: string, related: string, acc: Acc, reqs: set<string>)
    requires WellFormed(sc.schema)
    requires IsFieldIn(sc.schema, model, Head(dot)) && Head(dot) in t.children && Head(dot) != "ALL"
    requires Bounded(sc, model, t, reqs, related) && Accounts(sc, model, reqs, dot, related)
    ensures Bounded(sc, model, AddField(sc, model, t, dot, related, acc).tree, reqs, related)
    decreases |Split(dot, ".")|, Phase(dot), 1
  {
    var pair := SplitOnce(dot, ".");
    var fieldname := Head(dot);
    var kind := FieldType(sc.schema, model, fieldname).value;
    var path := Extend(related, fieldname);
    if kind.IsRelation() && (kind.ManyToMany? || |pair| > 1) && path in sc.drilldowns {
      var acc1 := if kind.IsSelectRelated() then acc.(selects := acc.selects + [path])
                  else acc.(prefetches := acc.prefetches + [path]);
      var child := t.children[fieldname];
      var sub := SubRequests(sc, model, reqs, fieldname, related);
      assert Bounded(sc, kind.target, child, sub, path);
      var r := if |pair| > 1 then Add(sc, kind.target, child, pair[1], path, acc1)
               else AddId(sc, model, kind.target, child, dot, acc1);
      assert AddField(sc, model, t, dot, related, acc).tree == FieldTree(t.children[fieldname := r.tree]);
      if |pair| > 1 {
        AccountsMember(sc, kind.target, sub, pair[1], path);
        AddBounded(sc, kind.target, child, pair[1], path, acc1, sub);
      } else {
        AddIdBounded(sc, model, kind.target, child, dot, acc1, sub, path);
      }
      BoundedUpdate(sc, model, t, reqs, related, fieldname, r.tree);
    }
  }

  lemma {:induction false} AddAllBounded(sc: Scope, model: string, t: FieldTree, names: seq<string>, related: string, acc: Acc, reqs: set<string>)
    requires WellFormed(sc.schema)
    requires forall k :: 0 <= k < |names| ==> PlainName(names[k]) && names[k] in Names(sc.schema, model)
    requires Bounded(sc, model, t, reqs, related) && HasAll(reqs)
    ensures Bounded(sc, model, AddAll(sc, model, t, names, related, acc).tree, reqs, related)
    decreases 1, 1, |names| + 3
  {
    if |names| > 0 {
      var fname := names[0];
      PlainMeasure(fname);
      var r := AddOne(sc, model, t, fname, related, acc);
      if Admits(sc, model, related, fname) {
        AccountsEligible(sc, model, reqs, fname, related);
        AddBounded(sc, model, t, fname, related, acc, reqs);
      }
      AddAllBounded(sc, model, r.tree, names[1..], related, r.acc, reqs);
    }
  }

  /** Under an `ALL` request, the requests account for every name the expansion takes. */
  lemma AccountsEligible(sc: Scope, model: string, reqs: set<string>, fname: string, related: string)
    requires PlainName(fname) && fname in Names(sc.schema, model) && Admits(sc, model, related, fname)
    requires HasAll(reqs)
    ensures Accounts(sc, model, reqs, fname, related)
  {
    PlainMeasure(fname);
    var names := Names(sc.schema, model);
    var i :| 0 <= i < |names| && names[i] == fname;
    assert fname in Eligible(sc, model, related, names);
  }

  /** The loop over requests from the requests keeps the tree within them. */
  lemma {:induction false} AddEachBounded(sc: Scope, model: string, t: FieldTree, fields: seq<string>, acc: Acc, reqs: set<string>)
    requires WellFormed(sc.schema)
    requires Bounded(sc, model, t, reqs, "") && forall i :: 0 <= i < |fields| ==> fields[i] in reqs
    ensures Bounded(sc, model, AddEach(sc, model, t, fields, acc).tree, reqs, "")
    decreases |fields|
  {
    if |fields| > 0 {
      var r1 := Add(sc, model, t, fields[0], "", acc);
      assert AddEach(sc, model, t, fields, acc) == AddEach(sc, model, r1.tree, fields[1..], r1.acc);
      AccountsMember(sc, model, reqs, fields[0], "");
      AddBounded(sc, model, t, fields[0], "", acc, reqs);
      AddEachBounded(sc, model, r1.tree, fields[1..], r1.acc, reqs);
    }
  }

  /**
   The fields map holds nothing beyond the requests: with
   `fields=client.profile`, the only key under `client` is `profile`.
   */
  lemma FieldsMapBounded(sc: Scope, model: string, fields: seq<string>)
    requires WellFormed(sc.schema)
    ensures Bounded(sc, model, CreateFieldsMap(sc, model, fields).tree, set d | d in fields, "")
  {
    var reqs := set d | d in fields;
    assert Bounded(sc, model, Leaf, reqs, "");
    AddEachBounded(sc, model, Leaf, fields, Fresh, reqs);
  }
}
