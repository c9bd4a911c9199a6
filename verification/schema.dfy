/**
 The abstract schema that replaces Django's model introspection: every
 entity (model) name maps to its fields in a fixed order, each field with its
 kind. `get_all_field_names`, `get_field_type`, `get_model` and `is_field_in`
 become lookups in this table.
 */
module Schema {
  import opened Wrappers
  import opened Strings

  /** The field classes the compiler distinguishes; a relation carries its target entity. */
  datatype FieldKind =
    | Scalar
    | ForeignKey(target: string)
    | OneToOne(target: string)
    | ManyToMany(target: string)
    | RelatedObject(target: string)
  {
    /** One of ForeignKey, OneToOneField, ManyToManyField or RelatedObject. */
    predicate IsRelation()
    {
      !Scalar?
    }

    /** The kinds the source joins with `select_related`. */
    predicate IsSelectRelated()
    {
      ForeignKey? || OneToOne? || RelatedObject?
    }
  }

  datatype Field = Field(name: string, kind: FieldKind)

  /** Entity name to its fields, in the order `get_all_field_names` lists them. */
  type Schema = map<string, seq<Field>>

  /** The fields of `model`; an entity the schema does not know has none. */
  function FieldsOf(s: Schema, model: string): seq<Field>
  {
    if model in s then s[model] else []
  }

  /** `get_all_field_names`. */
  function Names(s: Schema, model: string): (r: seq<string>)
    ensures |r| == |FieldsOf(s, model)|
    ensures forall i :: 0 <= i < |r| ==> r[i] == FieldsOf(s, model)[i].name
  {
    seq(|FieldsOf(s, model)|, i requires 0 <= i < |FieldsOf(s, model)| => FieldsOf(s, model)[i].name)
  }

  /** The kind of the first field called `name`, if there is one. */
  function KindIn(fields: seq<Field>, name: string): (r: Option<FieldKind>)
    ensures r.None? <==> forall i :: 0 <= i < |fields| ==> fields[i].name != name
    ensures r.Some? ==> exists i :: 0 <= i < |fields| && fields[i] == Field(name, r.value)
  {
    if |fields| == 0 then None
    else if fields[0].name == name then Some(fields[0].kind)
    else KindIn(fields[1..], name)
  }

  /** `is_field_in`: `name` is one of the field names of `model`. */
  predicate IsFieldIn(s: Schema, model: string, name: string)
  {
    name in Names(s, model)
  }

  /** `get_field_type`; the source only asks it about names that are fields. */
  function FieldType(s: Schema, model: string, name: string): (r: Option<FieldKind>)
    ensures r.Some? <==> IsFieldIn(s, model, name)
  {
    KindIn(FieldsOf(s, model), name)
  }

  /** `get_model`: the entity a relation field leads to, and nothing for any other field. */
  function RelatedModel(s: Schema, model: string, name: string): (r: Option<string>)
    ensures r.Some? <==> FieldType(s, model, name).Some? && FieldType(s, model, name).value.IsRelation()
    ensures r.Some? ==> r.value == FieldType(s, model, name).value.target
  {
    match FieldType(s, model, name)
    case Some(k) => if k.IsRelation() then Some(k.target) else None
    case None => None
  }

  /** A Python identifier character, the only characters a model field name can hold. */
  predicate IdentChar(c: char)
  {
    c == '_' || ('a' <= c <= 'z') || ('A' <= c <= 'Z') || ('0' <= c <= '9')
  }

  predicate Identifier(n: string)
  {
    |n| > 0 && forall k :: 0 <= k < |n| ==> IdentChar(n[k])
  }

  /**
   A field name the fields compiler can expand: an identifier that is not
   the `ALL` keyword.
   */
  predicate PlainName(n: string)
  {
    Identifier(n) && n != "ALL"
  }

  /**
   The schemas the fields compiler is modelled on. No field is called `ALL`
   and no ManyToMany field is called `id`: on those the source recurses
   without end (the `ALL` expansion re-enters itself; the default `id`
   sub-request of a ManyToMany field is itself a ManyToMany request when `id`
   is ManyToMany, so a cycle of such fields never stops). Field names are identifiers
   as well, so that each name an `ALL` expansion adds is one path segment;
   the termination measure relies on that, the source does not.
   */
  predicate WellFormed(s: Schema)
  {
    forall e, i :: e in s && 0 <= i < |s[e]| ==>
      PlainName(s[e][i].name) && (s[e][i].name == "id" ==> !s[e][i].kind.ManyToMany?)
  }

  /** The field names of a well-formed schema are all plain names. */
  lemma NamesArePlain(s: Schema, model: string)
    requires WellFormed(s)
    ensures forall i :: 0 <= i < |Names(s, model)| ==> PlainName(Names(s, model)[i])
  {
  }

  /** Every field of a well-formed schema has a plain name. */
  lemma FieldIsPlain(s: Schema, model: string, name: string)
    requires WellFormed(s) && IsFieldIn(s, model, name)
    ensures PlainName(name)
  {
    NamesArePlain(s, model);
    var i :| 0 <= i < |Names(s, model)| && Names(s, model)[i] == name;
  }

  /** In a well-formed schema no field called `id` is ManyToMany. */
  lemma IdIsNotManyToMany(s: Schema, model: string)
    requires WellFormed(s)
    ensures FieldType(s, model, "id").Some? ==> !FieldType(s, model, "id").value.ManyToMany?
  {
    var r := FieldType(s, model, "id");
    if r.Some? {
      var i :| 0 <= i < |FieldsOf(s, model)| && FieldsOf(s, model)[i] == Field("id", r.value);
    }
  }

  /** An identifier holds no '.', no whitespace, and so is its own single path segment. */
  lemma IdentifierSegment(n: string)
    requires Identifier(n)
    ensures Lacks(n, '.')
    ensures StripWs(n) == n
    ensures Split(n, ".") == [n] && SplitOnce(n, ".") == [n]
  {
    assert IdentChar(n[0]) && IdentChar(n[|n| - 1]);
    StripClean(n, Whitespace);
    SplitLacking(n, '.');
  }

  /** The entity reached from `model` by following the relations named in `names`, in order. */
  function Reaches(s: Schema, model: string, names: seq<string>): Option<string>
    decreases |names|
  {
    if |names| == 0 then Some(model)
    else
      match Reaches(s, model, names[..|names| - 1])
      case None => None
      case Some(m) => RelatedModel(s, m, names[|names| - 1])
  }

  /** The kind of the field the last name denotes, in the entity the other names lead to. */
  function KindAlong(s: Schema, model: string, names: seq<string>): Option<FieldKind>
  {
    if |names| == 0 then None
    else
      match Reaches(s, model, names[..|names| - 1])
      case None => None
      case Some(m) => FieldType(s, m, names[|names| - 1])
  }

  /** One more name: the walk goes on from where the others led. */
  lemma ReachesSnoc(s: Schema, model: string, names: seq<string>, f: string)
    ensures Reaches(s, model, names + [f]) ==
      if Reaches(s, model, names).Some? then RelatedModel(s, Reaches(s, model, names).value, f) else None
    ensures KindAlong(s, model, names + [f]) ==
      if Reaches(s, model, names).Some? then FieldType(s, Reaches(s, model, names).value, f) else None
  {
    assert (names + [f])[..|names|] == names;
  }

  /** A field of `model` is one of the names the schema lists for it. */
  lemma FieldListed(s: Schema, model: string, f: string)
    requires IsFieldIn(s, model, f)
    ensures model in s && exists i :: 0 <= i < |s[model]| && s[model][i].name == f
  {
    var i :| 0 <= i < |Names(s, model)| && Names(s, model)[i] == f;
  }
}
