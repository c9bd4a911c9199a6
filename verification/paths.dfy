/**
 The relation-path notation shared by the three compilers. A path is the
 `__`-joined chain of field names from the root entity; each step extends
 it with `(current + '__' + name).strip('__')`, and Python's `strip('__')`
 removes every leading and trailing underscore, not the two-character
 string.
 */
module Paths {
  import opened Wrappers
  import opened Strings
  import opened Schema

  /** One step of a traversal: `(current + '__' + name).strip('__')`. */
  function Extend(current: string, name: string): string
  {
    Strip(current + "__" + name, {'_'})
  }

  /** `path.replace('__', '.')`, the dotted spelling used in messages and the hide list. */
  function Dotted(path: string): string
  {
    Replace(path, "__", ".")
  }

  /** The paths a walk over `names` records, one per step, starting from `current`. */
  function Prefixes(names: seq<string>, current: string): seq<string>
  {
    if |names| == 0 then []
    else
      var next := Extend(current, names[0]);
      [next] + Prefixes(names[1..], next)
  }

  /** A character that may begin or end a clean segment. */
  predicate EdgeChar(c: char)
  {
    c != '_' && c !in Whitespace
  }

  /**
   A segment the notation passes through unchanged: not empty, and no
   underscore or whitespace at either end.
   */
  predicate CleanSegment(seg: string)
  {
    |seg| > 0 && EdgeChar(seg[0]) && EdgeChar(seg[|seg| - 1])
  }

  predicate AllClean(segs: seq<string>)
  {
    forall k :: 0 <= k < |segs| ==> CleanSegment(segs[k])
  }

  lemma JoinSnoc(xs: seq<string>, x: string, sep: string)
    requires |xs| > 0
    ensures Join(xs + [x], sep) == Join(xs, sep) + sep + x
    decreases |xs|
  {
    if |xs| == 1 {
      assert xs + [x] == [xs[0]] + [x];
      JoinCons(xs[0], [x], sep);
    } else {
      assert xs + [x] == [xs[0]] + (xs[1..] + [x]);
      JoinCons(xs[0], xs[1..] + [x], sep);
      JoinSnoc(xs[1..], x, sep);
      JoinCons(xs[0], xs[1..], sep);
    }
  }

  /** A join of clean segments begins with the first segment's first character and ends with the last one's last. */
  lemma {:induction false} JoinEnds(segs: seq<string>, sep: string)
    requires |segs| > 0 && AllClean(segs)
    ensures var j := Join(segs, sep);
      |j| > 0 && j[0] == segs[0][0] && j[|j| - 1] == segs[|segs| - 1][|segs[|segs| - 1]| - 1]
  {
    if |segs| > 1 {
      JoinEnds(segs[1..], sep);
      ConcatEnds(segs[0], sep, Join(segs[1..], sep));
    }
  }

  lemma ConcatEnds(a: string, b: string, c: string)
    requires |a| > 0 && |c| > 0
    ensures var j := a + b + c;
      j[0] == a[0] && j[|j| - 1] == c[|c| - 1]
  {
  }

  /** Extending the join of clean segments by a clean segment is joining one more. */
  lemma ExtendJoin(done: seq<string>, seg: string)
    requires AllClean(done) && CleanSegment(seg)
    ensures Extend(Join(done, "__"), seg) == Join(done + [seg], "__")
  {
    if |done| == 0 {
      assert done + [seg] == [seg];
      assert Join(done, "__") + "__" + seg == "__" + seg;
      StripLeadingRun("__", seg, {'_'});
    } else {
      JoinSnoc(done, seg, "__");
      JoinEnds(done + [seg], "__");
      StripClean(Join(done + [seg], "__"), {'_'});
    }
  }

  lemma {:induction false} PrefixesAfter(names: seq<string>, done: seq<string>)
    requires AllClean(done) && AllClean(names)
    ensures |Prefixes(names, Join(done, "__"))| == |names|
    ensures forall k :: 0 <= k < |names| ==>
              Prefixes(names, Join(done, "__"))[k] == Join(done + names[..k + 1], "__")
    decreases |names|
  {
    if |names| > 0 {
      var done' := done + [names[0]];
      ExtendJoin(done, names[0]);
      PrefixesAfter(names[1..], done');
      var ps := Prefixes(names, Join(done, "__"));
      forall k | 0 <= k < |names|
        ensures ps[k] == Join(done + names[..k + 1], "__")
      {
        if k == 0 {
          assert names[..1] == [names[0]];
        } else {
          assert ps[k] == Prefixes(names[1..], Join(done', "__"))[k - 1];
          assert done' + names[1..][..k] == done + names[..k + 1];
        }
      }
    }
  }

  /**
   For clean segments the notation is the plain `__` join: the path recorded
   at step `k` is the first `k + 1` segments joined with `__`.
   */
  lemma PrefixesOfClean(segs: seq<string>)
    requires AllClean(segs)
    ensures |Prefixes(segs, "")| == |segs|
    ensures forall k :: 0 <= k < |segs| ==> Prefixes(segs, "")[k] == Join(segs[..k + 1], "__")
  {
    PrefixesAfter(segs, []);
    assert Join([], "__") == "";
    forall k | 0 <= k < |segs|
      ensures Prefixes(segs, "")[k] == Join(segs[..k + 1], "__")
    {
      assert [] + segs[..k + 1] == segs[..k + 1];
    }
  }

  /** No segment holds the separator `__`. */
  predicate NoSeparators(segs: seq<string>)
  {
    forall k :: 0 <= k < |segs| ==> Absent(segs[k], "__")
  }

  /**
   Clean segments without `__` in them come back from the join unchanged:
   splitting the `__` join gives the segments again.
   */
  lemma {:induction false} SplitJoinClean(segs: seq<string>)
    requires |segs| > 0 && AllClean(segs) && NoSeparators(segs)
    ensures Split(Join(segs, "__"), "__") == segs
    decreases |segs|
  {
    if |segs| == 1 {
      assert Join(segs, "__") == segs[0];
    } else {
      var a := segs[0];
      assert segs == [a] + segs[1..];
      JoinCons(a, segs[1..], "__");
      assert CleanSegment(segs[0]) && Absent(segs[0], "__");
      SplitAfterPiece(a, Join(segs[1..], "__"));
      SplitJoinClean(segs[1..]);
      assert segs == [a] + segs[1..];
    }
  }

  /**
   Field names with no `__` inside and no underscore at either end, so the
   `__` notation neither merges nor splits them. Django itself refuses `__`
   and a trailing underscore but allows a leading one (`_order`), which
   `strip('__')` removes.
   */
  predicate LookupSafe(s: Schema)
  {
    forall e, i :: e in s && 0 <= i < |s[e]| ==> CleanSegment(s[e][i].name) && Absent(s[e][i].name, "__")
  }

  /** Under `LookupSafe`, a field name is a clean segment. */
  lemma FieldIsSegment(s: Schema, model: string, f: string)
    requires LookupSafe(s) && IsFieldIn(s, model, f)
    ensures CleanSegment(f) && Absent(f, "__")
  {
    FieldListed(s, model, f);
  }

  /**
   Walking one more field from a clean trail: the recorded path is the `__`
   join of the longer trail, which stays clean, and the walk reaches what
   that field leads to.
   */
  lemma TrailStep(s: Schema, root: string, trail: seq<string>, model: string, f: string)
    requires LookupSafe(s) && IsFieldIn(s, model, f)
    requires Reaches(s, root, trail) == Some(model) && AllClean(trail) && NoSeparators(trail)
    ensures var trail' := trail + [f];
      && Extend(Join(trail, "__"), f) == Join(trail', "__")
      && AllClean(trail') && NoSeparators(trail')
      && KindAlong(s, root, trail') == FieldType(s, model, f)
      && Reaches(s, root, trail') == RelatedModel(s, model, f)
  {
    FieldIsSegment(s, model, f);
    ExtendJoin(trail, f);
    ReachesSnoc(s, root, trail, f);
  }

  /** The same step, and the longer path splits back into the longer trail, so it names that field. */
  lemma ExtendTrail(s: Schema, root: string, trail: seq<string>, model: string, f: string)
    requires LookupSafe(s) && IsFieldIn(s, model, f)
    requires Reaches(s, root, trail) == Some(model) && AllClean(trail) && NoSeparators(trail)
    ensures var trail' := trail + [f];
      && Extend(Join(trail, "__"), f) == Join(trail', "__")
      && AllClean(trail') && NoSeparators(trail')
      && Split(Join(trail', "__"), "__") == trail'
      && KindAlong(s, root, trail') == FieldType(s, model, f)
      && Reaches(s, root, trail') == RelatedModel(s, model, f)
  {
    TrailStep(s, root, trail, model, f);
    SplitJoinClean(trail + [f]);
  }
}
