/**
 `DrilldownSerializerFactory`: the serializer built for one entity keeps, of
 the fields it would show by default, those the fields map requests, and
 attaches a nested serializer for every requested relation whose sub-map
 asks for more than its id. An empty fields map keeps the id alone.
 */
module Projection {
  import opened Wrappers
  import opened Schema
  import opened Paths
  import opened FieldsMap

  /** What a serializer shows: its field names, and a nested projection for some of them. */
  datatype Projection = Projection(fields: set<string>, nested: map<string, Projection>)

  /**
   The fields a serializer shows by default for each entity (`self.fields`
   before pruning); an entity without an entry shows none.
   */
  type Defaults = map<string, set<string>>

  function Available(avail: Defaults, model: string): set<string>
  {
    if model in avail then avail[model] else {}
  }

  /** A requested relation whose sub-map asks for more than `{'id': {}}` gets a nested serializer. */
  predicate Descends(s: Schema, model: string, name: string, sub: FieldTree)
  {
    sub != Leaf && sub != IdOnly && RelatedModel(s, model, name).Some?
  }

  /**
   `prune_fields`, and the ids-only branch for an empty map: the kept fields
   are the available requested ones together with the descended relations,
   each of which is pruned in its own entity with its own sub-map.
   */
  function Prune(s: Schema, avail: Defaults, model: string, tree: FieldTree): Projection
    decreases tree
  {
    if tree.children == map[] then Projection(Available(avail, model) * {"id"}, map[])
    else
      var nested := map k | k in tree.children && Descends(s, model, k, tree.children[k]) ::
        Prune(s, avail, RelatedModel(s, model, k).value, tree.children[k]);
      Projection((Available(avail, model) * tree.children.Keys) + nested.Keys, nested)
  }

  /**
   One level of the serializer: with no fields map only an available `id`
   is kept; otherwise a field is kept exactly when it is requested and
   either shown by default or descended into, and it is descended into
   exactly when it is a requested relation asking for more than its id.
   */
  lemma PruneLevel(s: Schema, avail: Defaults, model: string, tree: FieldTree)
    ensures var r := Prune(s, avail, model, tree);
      && r.nested.Keys <= r.fields
      && (tree.children == map[] ==> r.fields == Available(avail, model) * {"id"} && r.nested == map[])
      && (tree.children != map[] ==>
            && (forall f :: f in r.fields <==>
                  f in tree.children && (f in Available(avail, model) || Descends(s, model, f, tree.children[f])))
            && (forall f :: f in r.nested <==> f in tree.children && Descends(s, model, f, tree.children[f]))
            && (forall f :: f in r.nested ==>
                  r.nested[f] == Prune(s, avail, RelatedModel(s, model, f).value, tree.children[f])))
  {
  }

  /** Every field the projection shows, at every depth, was requested, apart from the default `id`. */
  predicate Within(p: Projection, tree: FieldTree)
    decreases tree
  {
    && (tree.children == map[] ==> p.fields <= {"id"} && p.nested == map[])
    && (tree.children != map[] ==> p.fields <= tree.children.Keys)
    && (forall k :: k in p.nested ==>
          k in tree.children && tree.children[k] != IdOnly && Within(p.nested[k], tree.children[k]))
  }

  /** The serializer never shows a field the fields map did not ask for, at any depth. */
  lemma {:induction false} PruneWithin(s: Schema, avail: Defaults, model: string, tree: FieldTree)
    ensures Within(Prune(s, avail, model, tree), tree)
    decreases tree
  {
    var r := Prune(s, avail, model, tree);
    forall k | k in r.nested
      ensures k in tree.children && tree.children[k] != IdOnly && Within(r.nested[k], tree.children[k])
    {
      PruneWithin(s, avail, RelatedModel(s, model, k).value, tree.children[k]);
    }
  }

  /** Every nested serializer sits at a `__` path that is a validated drilldown. */
  predicate NestedAllowed(p: Projection, related: string, dds: seq<string>)
  {
    forall k :: k in p.nested ==>
      Extend(related, k) in dds && NestedAllowed(p.nested[k], Extend(related, k), dds)
  }

  /**
   A fields map the compiler accepts leads only into validated drilldowns,
   so neither does the serializer built from it.
   */
  lemma {:induction false} PruneAllowed(sc: Scope, avail: Defaults, model: string, tree: FieldTree, related: string)
    requires TreeOk(sc, model, tree, related)
    ensures NestedAllowed(Prune(sc.schema, avail, model, tree), related, sc.drilldowns)
    decreases tree
  {
    var r := Prune(sc.schema, avail, model, tree);
    forall k | k in r.nested
      ensures Extend(related, k) in sc.drilldowns && NestedAllowed(r.nested[k], Extend(related, k), sc.drilldowns)
    {
      var next := RelatedModel(sc.schema, model, k).value;
      PruneAllowed(sc, avail, next, tree.children[k], Extend(related, k));
    }
  }

  /**
   Every field the projection shows, at every depth, is one the requests
   ask for (a request's head, or a name an `ALL` takes), or it shows the
   `id` alone; a nested serializer sits under a requested relation and
   shows only what the requests continuing under it ask for.
   */
  predicate Requested(sc: Scope, model: string, p: Projection, reqs: set<string>, related: string)
    decreases p
  {
    && (p.fields <= Wanted(sc, model, reqs, related) || (p.fields <= {"id"} && p.nested == map[]))
    && forall k :: k in p.nested ==>
         && k in Wanted(sc, model, reqs, related)
         && RelatedModel(sc.schema, model, k).Some?
         && Requested(sc, RelatedModel(sc.schema, model, k).value, p.nested[k],
                      SubRequests(sc, model, reqs, k, related), Extend(related, k))
  }

  /** Pruning a fields map within the requests shows only what they ask for. */
  lemma {:induction false} PruneRequested(sc: Scope, avail: Defaults, model: string, tree: FieldTree, reqs: set<string>, related: string)
    requires Bounded(sc, model, tree, reqs, related)
    ensures Requested(sc, model, Prune(sc.schema, avail, model, tree), reqs, related)
    decreases tree
  {
    var r := Prune(sc.schema, avail, model, tree);
    forall k | k in r.nested
      ensures && k in Wanted(sc, model, reqs, related)
              && RelatedModel(sc.schema, model, k).Some?
              && Requested(sc, RelatedModel(sc.schema, model, k).value, r.nested[k],
                           SubRequests(sc, model, reqs, k, related), Extend(related, k))
    {
      var next := RelatedModel(sc.schema, model, k).value;
      PruneRequested(sc, avail, next, tree.children[k], SubRequests(sc, model, reqs, k, related), Extend(related, k));
    }
  }

  /** The serializer `get` builds for the compiled fields map of a request. */
  function Serializer(sc: Scope, avail: Defaults, model: string, fields: seq<string>): Projection
    requires WellFormed(sc.schema)
  {
    Prune(sc.schema, avail, model, CreateFieldsMap(sc, model, fields).tree)
  }

  /**
   The response shape for a request: nothing beyond the fields map, and so
   nothing beyond what the requests ask for, at any depth; and no nested
   serializer outside the validated drilldowns.
   */
  lemma SerializerSafe(sc: Scope, avail: Defaults, model: string, fields: seq<string>)
    requires WellFormed(sc.schema)
    ensures Within(Serializer(sc, avail, model, fields), CreateFieldsMap(sc, model, fields).tree)
    ensures Requested(sc, model, Serializer(sc, avail, model, fields), set d | d in fields, "")
    ensures NestedAllowed(Serializer(sc, avail, model, fields), "", sc.drilldowns)
  {
    var t := CreateFieldsMap(sc, model, fields).tree;
    PruneWithin(sc.schema, avail, model, t);
    FieldsMapBounded(sc, model, fields);
    PruneRequested(sc, avail, model, t, set d | d in fields, "");
    PruneAllowed(sc, avail, model, t, "");
  }
}
