/**
 The paging and ordering part of `DrillDownAPIView.get`: the `order_by`
 parameter, the effective limit under the throttle, the slice taken from
 the filtered rows, and the `X-Total-Count` header.
 */
module Pagination {
  import opened Wrappers
  import opened Strings

  /** `GLOBAL_THROTTLE`: the largest page when the view sets no `THROTTLE` of its own. */
  const GlobalThrottle: int := 2000

  /** `int_or_none(...) or 0`: a missing or non-numeric parameter, and zero, all mean zero. */
  function OrZero(v: Option<int>): (r: int)
    ensures v.None? ==> r == 0
    ensures v.Some? ==> r == v.value
  {
    match v
    case None => 0
    case Some(n) => n
  }

  function Min(a: int, b: int): int
  {
    if a <= b then a else b
  }

  /**
   `min(getattr(self, 'THROTTLE', GLOBAL_THROTTLE), limit or GLOBAL_THROTTLE)`:
   `throttle` is the view's own `THROTTLE`, if it has one.
   */
  function EffectiveLimit(throttle: Option<int>, limit: int): (r: int)
    ensures r <= throttle.GetOr(GlobalThrottle)
    ensures limit != 0 ==> r <= limit
    ensures limit == 0 ==> r <= GlobalThrottle
    ensures r == throttle.GetOr(GlobalThrottle) || r == (if limit == 0 then GlobalThrottle else limit)
  {
    Min(throttle.GetOr(GlobalThrottle), if limit == 0 then GlobalThrottle else limit)
  }

  /**
   The effective limit is zero exactly when the view's throttle is zero: a
   requested limit of zero falls back to the global throttle, so only a
   zero `THROTTLE` (with a limit that is not negative) turns the limit off.
   */
  lemma LimitZeroIff(throttle: Option<int>, limit: int)
    ensures EffectiveLimit(throttle, limit) == 0 <==> throttle == Some(0) && limit >= 0
    ensures throttle.None? && limit >= 0 ==> 0 < EffectiveLimit(throttle, limit) <= GlobalThrottle
  {
  }

  /** The four ways `get` slices the query. */
  datatype Window = Everything | Upto(stop: int) | From(start: int) | Range(start: int, stop: int)

  /** The branch `get` takes on the effective offset and limit. */
  function WindowOf(offset: int, limit: int): (w: Window)
    ensures limit != 0 && offset != 0 ==> w == Range(offset, limit + offset)
    ensures limit != 0 && offset == 0 ==> w == Upto(limit)
    ensures limit == 0 && offset != 0 ==> w == From(offset)
    ensures limit == 0 && offset == 0 ==> w == Everything
  {
    if limit != 0 && offset != 0 then Range(offset, limit + offset)
    else if limit != 0 then Upto(limit)
    else if offset != 0 then From(offset)
    else Everything
  }

  /**
   Slicing a query set: a negative bound is refused (Django does not support
   negative indexing), and otherwise the bounds are clamped to the rows as a
   list slice is, with an empty result when the stop is before the start.
   */
  function Slice<T>(rows: seq<T>, start: int, stop: Option<int>): (r: Option<seq<T>>)
    ensures r.None? <==> start < 0 || (stop.Some? && stop.value < 0)
    ensures r.Some? ==> |r.value| <= |rows|
  {
    if start < 0 || (stop.Some? && stop.value < 0) then None
    else
      var lo := Min(start, |rows|);
      var hi := if stop.None? then |rows| else Min(stop.value, |rows|);
      Some(if hi <= lo then [] else rows[lo..hi])
  }

  /** The rows of the page `get` serialises, or nothing when the query set refuses the slice. */
  function Page<T>(rows: seq<T>, offset: int, limit: int): Option<seq<T>>
  {
    match WindowOf(offset, limit)
    case Everything => Some(rows)
    case Upto(stop) => Slice(rows, 0, Some(stop))
    case From(start) => Slice(rows, start, None)
    case Range(start, stop) => Slice(rows, start, Some(stop))
  }

  /**
   The page against a direct definition: it exists exactly when neither the
   offset nor the end of the window is negative; with a limit that is not
   negative it is the rows from the offset, at most `limit` of them when the
   limit is not zero and all of them otherwise; a negative limit that still
   leaves the end of the window in range gives an empty page.
   */
  lemma PageSpec<T>(rows: seq<T>, offset: int, limit: int)
    ensures Page(rows, offset, limit).Some? <==> offset >= 0 && offset + limit >= 0
    ensures offset >= 0 && limit >= 0 ==>
      var lo := Min(offset, |rows|);
      var hi := if limit == 0 then |rows| else Min(offset + limit, |rows|);
      Page(rows, offset, limit) == Some(rows[lo..hi])
    ensures limit < 0 && offset + limit >= 0 ==> Page(rows, offset, limit) == Some([])
    ensures Page(rows, offset, limit).Some? && limit > 0 ==> |Page(rows, offset, limit).value| <= limit
  {
    var n := |rows|;
    if offset >= 0 && limit >= 0 {
      var lo := Min(offset, n);
      var hi := if limit == 0 then n else Min(offset + limit, n);
      assert lo <= hi;
      if limit == 0 && offset == 0 {
        assert rows[0..n] == rows;
      } else if lo == hi {
        assert rows[lo..hi] == [];
      }
    }
  }

  /**
   `X-Total-Count`: the full count when there is an offset or the page is
   full, the page length otherwise.
   */
  function TotalCount(offset: int, limit: int, pageLength: nat, countAll: nat): nat
  {
    if offset != 0 || (pageLength != 0 && pageLength == limit) then countAll else pageLength
  }

  /**
   The shortcut is sound: whenever the page exists, the reported total is
   the number of filtered rows, although the full count is only taken when
   the page cannot tell.
   */
  lemma {:induction false} TotalCountExact<T>(rows: seq<T>, offset: int, limit: int)
    requires Page(rows, offset, limit).Some?
    ensures TotalCount(offset, limit, |Page(rows, offset, limit).value|, |rows|) == |rows|
  {
    PageSpec(rows, offset, limit);
    var p := Page(rows, offset, limit).value;
    if offset == 0 && !(|p| != 0 && |p| == limit) {
      if limit == 0 {
        assert p == rows[0..|rows|];
      } else {
        assert p == rows[0..Min(limit, |rows|)];
        assert |p| == Min(limit, |rows|);
      }
    }
  }

  /**
   When the count shortcut takes the page length (no offset, and a page
   that is empty or shorter than the limit), the page is all of the rows.
   */
  lemma {:induction false} ShortPageIsAll<T>(rows: seq<T>, offset: int, limit: int)
    requires Page(rows, offset, limit).Some?
    requires offset == 0
    requires var n := |Page(rows, offset, limit).value|; !(n != 0 && n == limit)
    ensures Page(rows, offset, limit).value == rows
  {
    PageSpec(rows, offset, limit);
    var p := Page(rows, offset, limit).value;
    if limit == 0 {
      assert p == rows[0..|rows|];
    } else {
      assert p == rows[0..Min(limit, |rows|)];
    }
  }

  /**
   `order_by`: the parameter with every `.` spelled `__`, split on commas,
   and nothing when that is empty.
   */
  function OrderBy(param: Option<string>): (r: seq<string>)
    ensures r == [] <==> param.None? || param.value == ""
    ensures r != [] ==> Join(r, ",") == Replace(param.value, ".", "__")
    ensures forall k :: 0 <= k < |r| ==> Lacks(r[k], '.')
  {
    var text := Replace(param.GetOr(""), ".", "__");
    ReplaceRemoves(param.GetOr(""), '.', "__");
    ReplaceEmpty(param.GetOr(""));
    if text == "" then []
    else
      SplitPiecesLack(text, ",", '.');
      Split(text, ",")
  }

  /** Replacing `.` by `__` leaves the text empty exactly when it was empty. */
  lemma ReplaceEmpty(t: string)
    ensures Replace(t, ".", "__") == "" <==> t == ""
  {
    if t != "" {
      var parts := Split(t, ".");
      if |parts| > 1 {
        JoinCons(parts[0], parts[1..], "__");
        assert parts == [parts[0]] + parts[1..];
      }
    }
  }
}
