/**
 `DrillDownAPIView._validate_drilldowns`: each declared `a__b__c` path is
 walked through the schema, every accumulated prefix is recorded once, in
 the order first seen, and a single bad segment anywhere empties the whole
 list.
 */
module Drilldowns {
  import opened Wrappers
  import opened Strings
  import opened Lists
  import opened Schema
  import opened Paths

  /** The state the source keeps in `validated_drilldowns` and `self.error`. */
  datatype Walk = Walk(paths: seq<string>, error: Option<string>)

  const ErrorPrefix: string := "Error in drilldowns"

  function NotAFieldMessage(fieldname: string, model: string): string
  {
    ErrorPrefix + ": \"" + fieldname + "\" is not a valid field in " + model + ". Remember __ not .)"
  }

  function NotARelationMessage(fieldname: string): string
  {
    ErrorPrefix + ": \"" + fieldname + "\" is not a ForeignKey, ManyToMany, OneToOne, or RelatedObject."
  }

  /**
   `validate_me`: look up the first `__` segment of `dd` in `model`, record
   the extended path unless already recorded, and continue with the rest of
   `dd` in the related entity. An unknown field or a non-relation sets the
   error and stops this path; what was recorded before stays.
   */
  function ValidateMe(s: Schema, model: string, dd: string, current: string, w: Walk): Walk
    decreases |dd|
  {
    var pair := SplitOnce(dd, "__");
    var fieldname := StripWs(pair[0]);
    if !IsFieldIn(s, model, fieldname) then
      Walk(w.paths, Some(NotAFieldMessage(fieldname, model)))
    else
      match RelatedModel(s, model, fieldname)
      case None => Walk(w.paths, Some(NotARelationMessage(fieldname)))
      case Some(next) =>
        var path := Extend(current, fieldname);
        var w' := Walk(AppendNew(w.paths, path), w.error);
        if |pair| > 1 then ValidateMe(s, next, pair[1], path, w') else w'
  }

  /** The loop over the declared paths; an error does not stop it, and the last error is kept. */
  function ValidateEach(s: Schema, model: string, dds: seq<string>, w: Walk): Walk
    decreases |dds|
  {
    if |dds| == 0 then w else ValidateEach(s, model, dds[1..], ValidateMe(s, model, dds[0], "", w))
  }

  /** `_validate_drilldowns`: the validated list, emptied when any declared path failed. */
  function ValidateDrilldowns(s: Schema, model: string, dds: seq<string>): Walk
  {
    var w := ValidateEach(s, model, dds, Walk([], None));
    if w.error.Some? then Walk([], w.error) else w
  }

  // Reference definitions: what a declared path means, stated without the walk.

  /** The field names a declared path spells, one per `__` segment, as they are looked up. */
  function Segments(dd: string): seq<string>
  {
    var parts := Split(dd, "__");
    seq(|parts|, i requires 0 <= i < |parts| => StripWs(parts[i]))
  }

  /** Every name is a relation of the entity the previous names lead to. */
  predicate RelationChain(s: Schema, model: string, names: seq<string>)
    decreases |names|
  {
    |names| == 0 ||
    match RelatedModel(s, model, names[0])
    case None => false
    case Some(next) => RelationChain(s, next, names[1..])
  }

  /** Every declared path is a chain of relations from the root entity. */
  predicate AllDeclaredValid(s: Schema, model: string, dds: seq<string>)
  {
    forall k :: 0 <= k < |dds| ==> RelationChain(s, model, Segments(dds[k]))
  }

  /** The prefixes of every declared path, path after path, repetitions included. */
  function DeclaredPrefixes(dds: seq<string>): seq<string>
    decreases |dds|
  {
    if |dds| == 0 then [] else Prefixes(Segments(dds[0]), "") + DeclaredPrefixes(dds[1..])
  }

  lemma SegmentsUnfold(dd: string)
    ensures var pair := SplitOnce(dd, "__");
      && |Segments(dd)| > 0
      && Segments(dd)[0] == StripWs(pair[0])
      && (|pair| == 1 ==> |Segments(dd)| == 1)
      && (|pair| == 2 ==> Segments(pair[1]) == Segments(dd)[1..])
  {
  }

  /**
   One declared path: the walk fails exactly when the path is not a chain of
   relations (or an earlier path already failed), and otherwise records the
   path's prefixes that are new, in order.
   */
  lemma {:induction false} ValidateMeSpec(s: Schema, model: string, dd: string, current: string, w: Walk)
    ensures var r := ValidateMe(s, model, dd, current, w);
      && (r.error.Some? <==> w.error.Some? || !RelationChain(s, model, Segments(dd)))
      && (RelationChain(s, model, Segments(dd)) ==>
            r.error == w.error && r.paths == AppendAllNew(w.paths, Prefixes(Segments(dd), current)))
    decreases |dd|
  {
    var pair := SplitOnce(dd, "__");
    var fieldname := StripWs(pair[0]);
    var names := Segments(dd);
    SegmentsUnfold(dd);
    if IsFieldIn(s, model, fieldname) && RelatedModel(s, model, fieldname).Some? {
      var next := RelatedModel(s, model, fieldname).value;
      var path := Extend(current, fieldname);
      var w' := Walk(AppendNew(w.paths, path), w.error);
      assert Prefixes(names, current) == [path] + Prefixes(names[1..], path);
      if |pair| > 1 {
        ValidateMeSpec(s, next, pair[1], path, w');
      } else {
        assert names[1..] == [];
      }
    }
  }

  lemma {:induction false} ValidateEachSpec(s: Schema, model: string, dds: seq<string>, w: Walk)
    ensures var r := ValidateEach(s, model, dds, w);
      && (r.error.Some? <==> w.error.Some? || !AllDeclaredValid(s, model, dds))
      && (AllDeclaredValid(s, model, dds) ==>
            r.error == w.error && r.paths == AppendAllNew(w.paths, DeclaredPrefixes(dds)))
    decreases |dds|
  {
    if |dds| > 0 {
      var w1 := ValidateMe(s, model, dds[0], "", w);
      ValidateMeSpec(s, model, dds[0], "", w);
      ValidateEachSpec(s, model, dds[1..], w1);
      assert AllDeclaredValid(s, model, dds) <==>
        RelationChain(s, model, Segments(dds[0])) && AllDeclaredValid(s, model, dds[1..]) by {
        if AllDeclaredValid(s, model, dds[1..]) && RelationChain(s, model, Segments(dds[0])) {
          forall k | 0 <= k < |dds|
            ensures RelationChain(s, model, Segments(dds[k]))
          {
            if k > 0 {
              assert dds[k] == dds[1..][k - 1];
            }
          }
        }
      }
      if AllDeclaredValid(s, model, dds) {
        AppendAllNewConcat(w.paths, Prefixes(Segments(dds[0]), ""), DeclaredPrefixes(dds[1..]));
      }
    }
  }

  /**
   The validated drilldowns: when every declared path is a chain of
   relations there is no error and the result is the declared prefixes
   without repetitions, each once, in first-seen order; otherwise there is
   an error and the result is empty.
   */
  lemma ValidateDrilldownsSpec(s: Schema, model: string, dds: seq<string>)
    ensures var r := ValidateDrilldowns(s, model, dds);
      && (r.error.None? <==> AllDeclaredValid(s, model, dds))
      && (r.error.Some? ==> r.paths == [])
      && (r.error.None? ==> r.paths == Dedup(DeclaredPrefixes(dds)))
      && NoDuplicates(r.paths)
      && (r.error.None? ==> FirstSeenOrder(r.paths, DeclaredPrefixes(dds)))
  {
    ValidateEachSpec(s, model, dds, Walk([], None));
    DedupFirstSeen(DeclaredPrefixes(dds));
  }

  /** The prefixes of one declared path. */
  function PrefixesOf(dd: string): seq<string>
  {
    Prefixes(Segments(dd), "")
  }

  lemma {:induction false} DeclaredFlatMap(dds: seq<string>)
    ensures DeclaredPrefixes(dds) == FlatMap(PrefixesOf, dds)
    decreases |dds|
  {
    if |dds| > 0 {
      DeclaredFlatMap(dds[1..]);
    }
  }

  lemma InDeclaredPrefixes(dds: seq<string>, x: string)
    ensures x in DeclaredPrefixes(dds) <==>
      exists i :: 0 <= i < |dds| && x in Prefixes(Segments(dds[i]), "")
  {
    DeclaredFlatMap(dds);
    InFlatMap(PrefixesOf, dds, x);
  }

  /** The `__`-prefixes of a declared path: its first one, two, ... segments joined with `__`. */
  function PathPrefixes(dd: string): seq<string>
  {
    var parts := Split(dd, "__");
    seq(|parts|, k requires 0 <= k < |parts| => Join(parts[..k + 1], "__"))
  }

  /** For clean segments the walk records exactly the `__`-prefixes, as written. */
  lemma PrefixesOfCleanPath(dd: string)
    requires AllClean(Split(dd, "__"))
    ensures Prefixes(Segments(dd), "") == PathPrefixes(dd)
  {
    var parts := Split(dd, "__");
    forall i | 0 <= i < |parts|
      ensures StripWs(parts[i]) == parts[i]
    {
      StripClean(parts[i], Whitespace);
    }
    assert Segments(dd) == parts;
    PrefixesOfClean(parts);
  }

  /**
   Closure: when the declared paths are valid and their segments are clean,
   the validated list holds exactly the `__`-prefixes of the declared paths,
   so every prefix of an allowed path is itself allowed.
   */
  lemma DrilldownClosure(s: Schema, model: string, dds: seq<string>)
    requires AllDeclaredValid(s, model, dds)
    requires forall i :: 0 <= i < |dds| ==> AllClean(Split(dds[i], "__"))
    ensures var r := ValidateDrilldowns(s, model, dds).paths;
      && (forall i, p :: 0 <= i < |dds| && p in PathPrefixes(dds[i]) ==> p in r)
      && (forall x :: x in r ==> exists i :: 0 <= i < |dds| && x in PathPrefixes(dds[i]))
  {
    var r := ValidateDrilldowns(s, model, dds).paths;
    ValidateDrilldownsSpec(s, model, dds);
    DedupFirstSeen(DeclaredPrefixes(dds));
    forall i | 0 <= i < |dds|
      ensures Prefixes(Segments(dds[i]), "") == PathPrefixes(dds[i])
    {
      PrefixesOfCleanPath(dds[i]);
    }
    forall i, p | 0 <= i < |dds| && p in PathPrefixes(dds[i])
      ensures p in r
    {
      InDeclaredPrefixes(dds, p);
    }
    forall x | x in r
      ensures exists i :: 0 <= i < |dds| && x in PathPrefixes(dds[i])
    {
      InDeclaredPrefixes(dds, x);
    }
  }

  /** Every message the walk sets begins with the drilldowns prefix. */
  predicate PrefixedError(w: Walk)
  {
    w.error.Some? ==> ErrorPrefix <= w.error.value
  }

  lemma MessagesPrefixed(fieldname: string, model: string)
    ensures ErrorPrefix <= NotAFieldMessage(fieldname, model)
    ensures ErrorPrefix <= NotARelationMessage(fieldname)
  {
    assert NotAFieldMessage(fieldname, model)[..|ErrorPrefix|] == ErrorPrefix;
    assert NotARelationMessage(fieldname)[..|ErrorPrefix|] == ErrorPrefix;
  }

  lemma {:induction false} ValidateMePrefix(s: Schema, model: string, dd: string, current: string, w: Walk)
    requires PrefixedError(w)
    ensures PrefixedError(ValidateMe(s, model, dd, current, w))
    decreases |dd|
  {
    var pair := SplitOnce(dd, "__");
    var fieldname := StripWs(pair[0]);
    MessagesPrefixed(fieldname, model);
    if IsFieldIn(s, model, fieldname) && RelatedModel(s, model, fieldname).Some? && |pair| > 1 {
      var path := Extend(current, fieldname);
      ValidateMePrefix(s, RelatedModel(s, model, fieldname).value, pair[1], path, Walk(AppendNew(w.paths, path), w.error));
    }
  }

  lemma {:induction false} ValidateEachPrefix(s: Schema, model: string, dds: seq<string>, w: Walk)
    requires PrefixedError(w)
    ensures PrefixedError(ValidateEach(s, model, dds, w))
    decreases |dds|
  {
    if |dds| > 0 {
      ValidateMePrefix(s, model, dds[0], "", w);
      ValidateEachPrefix(s, model, dds[1..], ValidateMe(s, model, dds[0], "", w));
    }
  }

  /** The error `_validate_drilldowns` leaves, if any, is one of its own messages. */
  lemma DrilldownErrorPrefix(s: Schema, model: string, dds: seq<string>)
    ensures PrefixedError(ValidateDrilldowns(s, model, dds))
  {
    ValidateEachPrefix(s, model, dds, Walk([], None));
  }
}
