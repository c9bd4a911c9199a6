/**
 The Python string operations the request compiler is built from:
 `str.split(sep)`, `str.split(sep, 1)`, `str.strip(chars)`, `str.strip()`,
 `str.join` and `str.replace`, with the left-to-right, non-overlapping
 matching Python uses for a separator of any length.
 */
module Strings {
  import opened Wrappers

  /** `sep` occurs in `s` starting at index `i`. */
  predicate OccursAt(s: string, sep: string, i: nat)
  {
    i + |sep| <= |s| && s[i..i + |sep|] == sep
  }

  /** `sep` occurs nowhere in `s`. */
  predicate Absent(s: string, sep: string)
  {
    forall j :: 0 <= j <= |s| ==> !OccursAt(s, sep, j)
  }

  /** The first occurrence of `sep` in `s` at or after index `i`. */
  function FindFrom(s: string, sep: string, i: nat): (r: Option<nat>)
    requires |sep| > 0
    ensures r.Some? ==> i <= r.value && OccursAt(s, sep, r.value)
    ensures forall j: nat :: i <= j && (r.None? || j < r.value) ==> !OccursAt(s, sep, j)
    decreases |s| - i
  {
    if i + |sep| > |s| then None
    else if s[i..i + |sep|] == sep then Some(i)
    else FindFrom(s, sep, i + 1)
  }

  /** The first occurrence of `sep` in `s`, as `str.find` reports it. */
  function Find(s: string, sep: string): (r: Option<nat>)
    requires |sep| > 0
    ensures r.Some? ==> OccursAt(s, sep, r.value)
    ensures r.Some? ==> forall j: nat :: j < r.value ==> !OccursAt(s, sep, j)
    ensures r.None? <==> Absent(s, sep)
  {
    FindFrom(s, sep, 0)
  }

  /** `str.join`: the parts with `sep` between consecutive ones. */
  function Join(parts: seq<string>, sep: string): string
  {
    if |parts| == 0 then ""
    else if |parts| == 1 then parts[0]
    else parts[0] + sep + Join(parts[1..], sep)
  }

  lemma JoinCons(a: string, rest: seq<string>, sep: string)
    requires |rest| > 0
    ensures Join([a] + rest, sep) == a + sep + Join(rest, sep)
  {
    assert ([a] + rest)[1..] == rest;
  }

  lemma OccursInPrefix(s: string, sep: string, i: nat, j: nat)
    requires i <= |s|
    requires OccursAt(s[..i], sep, j)
    ensures OccursAt(s, sep, j) && j + |sep| <= i
  {
    assert s[..i][j..j + |sep|] == s[j..j + |sep|];
  }

  /** The text before the first occurrence of a separator does not contain it. */
  lemma AbsentBeforeFirst(s: string, sep: string, i: nat)
    requires |sep| > 0 && i <= |s|
    requires forall j: nat :: j < i ==> !OccursAt(s, sep, j)
    ensures Absent(s[..i], sep)
  {
    forall j: nat | OccursAt(s[..i], sep, j)
      ensures false
    {
      OccursInPrefix(s, sep, i, j);
    }
  }

  /**
   `str.split(sep)`: the pieces between the non-overlapping occurrences of
   `sep`, found from left to right. Joining them back gives `s`, and no
   piece contains the separator.
   */
  function Split(s: string, sep: string): (parts: seq<string>)
    requires |sep| > 0
    ensures |parts| >= 1
    ensures Join(parts, sep) == s
    ensures forall k :: 0 <= k < |parts| ==> Absent(parts[k], sep)
    decreases |s|
  {
    match Find(s, sep)
    case None => [s]
    case Some(i) =>
      AbsentBeforeFirst(s, sep, i);
      var rest := Split(s[i + |sep|..], sep);
      JoinCons(s[..i], rest, sep);
      [s[..i]] + rest
  }

  /**
   `str.split(sep, 1)`: the text before the first separator and, when there
   is one, everything after it. It agrees with `Split` on the first piece,
   and its second piece splits into the remaining pieces of `Split`.
   */
  function SplitOnce(s: string, sep: string): (parts: seq<string>)
    requires |sep| > 0
    ensures |parts| == 1 || |parts| == 2
    ensures parts[0] == Split(s, sep)[0]
    ensures |parts| == 2 <==> |Split(s, sep)| > 1
    ensures |parts| == 2 ==> Split(parts[1], sep) == Split(s, sep)[1..]
    ensures |parts| == 2 ==> |parts[0]| + |sep| + |parts[1]| == |s|
    ensures |parts| == 1 ==> parts[0] == s
  {
    match Find(s, sep)
    case None => [s]
    case Some(i) => [s[..i], s[i + |sep|..]]
  }

  /**
   The bounds `str.strip(cs)` keeps: every character before the first bound
   and from the second bound on belongs to `cs`, and the kept text, when it
   is not empty, begins and ends with a character outside `cs`.
   */
  function StripBounds(s: string, cs: set<char>): (b: (nat, nat))
    ensures b.0 <= b.1 <= |s|
    ensures forall k :: 0 <= k < b.0 ==> s[k] in cs
    ensures forall k :: b.1 <= k < |s| ==> s[k] in cs
    ensures b.0 < b.1 ==> s[b.0] !in cs && s[b.1 - 1] !in cs
  {
    var lo := SkipLeading(s, cs, 0);
    (lo, SkipTrailing(s, cs, lo, |s|))
  }

  function SkipLeading(s: string, cs: set<char>, i: nat): (r: nat)
    requires i <= |s|
    ensures i <= r <= |s|
    ensures forall k :: i <= k < r ==> s[k] in cs
    ensures r < |s| ==> s[r] !in cs
    decreases |s| - i
  {
    if i < |s| && s[i] in cs then SkipLeading(s, cs, i + 1) else i
  }

  function SkipTrailing(s: string, cs: set<char>, lo: nat, j: nat): (r: nat)
    requires lo <= j <= |s|
    ensures lo <= r <= j
    ensures forall k :: r <= k < j ==> s[k] in cs
    ensures lo < r ==> s[r - 1] !in cs
    decreases j
  {
    if lo < j && s[j - 1] in cs then SkipTrailing(s, cs, lo, j - 1) else j
  }

  /** `str.strip(cs)`: `s` without its leading and trailing characters from `cs`. */
  function Strip(s: string, cs: set<char>): string
  {
    var b := StripBounds(s, cs);
    s[b.0..b.1]
  }

  /** A string whose end characters are outside `cs` is left alone by `Strip`. */
  lemma StripClean(s: string, cs: set<char>)
    requires |s| == 0 || (s[0] !in cs && s[|s| - 1] !in cs)
    ensures Strip(s, cs) == s
  {
    var b := StripBounds(s, cs);
    if |s| > 0 {
      assert b.0 == 0;
      assert b.1 == |s|;
    }
  }

  /** Stripping `u + v` removes exactly `u` when `u` is all `cs` and `v` is clean. */
  lemma StripLeadingRun(u: string, v: string, cs: set<char>)
    requires forall k :: 0 <= k < |u| ==> u[k] in cs
    requires |v| > 0 && v[0] !in cs && v[|v| - 1] !in cs
    ensures Strip(u + v, cs) == v
  {
    var t := u + v;
    var b := StripBounds(t, cs);
    assert t[|u|] == v[0];
    assert t[|t| - 1] == v[|v| - 1];
    assert forall k :: 0 <= k < |u| ==> t[k] in cs;
    assert b.0 == |u|;
    assert b.1 == |t|;
    assert t[|u|..|t|] == v;
  }

  /** The characters `str.strip()` removes when called without arguments (Python 3's `str.isspace`). */
  const Whitespace: set<char> := {
    ' ', '\t', '\n', '\r', '\U{0B}', '\U{0C}', '\U{1C}', '\U{1D}', '\U{1E}', '\U{1F}',
    '\U{85}', '\U{A0}', '\U{1680}', '\U{2000}', '\U{2001}', '\U{2002}', '\U{2003}',
    '\U{2004}', '\U{2005}', '\U{2006}', '\U{2007}', '\U{2008}', '\U{2009}', '\U{200A}',
    '\U{2028}', '\U{2029}', '\U{202F}', '\U{205F}', '\U{3000}'
  }

  /** `str.strip()`. */
  function StripWs(s: string): string
  {
    Strip(s, Whitespace)
  }

  /** `str.replace(pattern, replacement)`: every non-overlapping occurrence of `pattern`, left to right, becomes `replacement`. */
  function Replace(s: string, pattern: string, replacement: string): string
    requires |pattern| > 0
  {
    Join(Split(s, pattern), replacement)
  }

  /** The character `c` does not appear in `s`. */
  predicate Lacks(s: string, c: char)
  {
    forall k :: 0 <= k < |s| ==> s[k] != c
  }

  /** A one-character separator is absent exactly when that character is. */
  lemma AbsentChar(s: string, c: char)
    ensures Absent(s, [c]) <==> Lacks(s, c)
  {
    if Absent(s, [c]) {
      forall k | 0 <= k < |s|
        ensures s[k] != c
      {
        assert !OccursAt(s, [c], k);
        assert s[k..k + 1] == [s[k]];
      }
    }
    if Lacks(s, c) {
      forall j | 0 <= j <= |s|
        ensures !OccursAt(s, [c], j)
      {
        if j + 1 <= |s| {
          assert s[j..j + 1] == [s[j]];
        }
      }
    }
  }

  /** Joining pieces that lack `c` with a separator that lacks `c` gives text that lacks `c`. */
  lemma {:induction false} JoinLacks(parts: seq<string>, sep: string, c: char)
    requires forall k :: 0 <= k < |parts| ==> Lacks(parts[k], c)
    requires Lacks(sep, c)
    ensures Lacks(Join(parts, sep), c)
  {
    if |parts| > 1 {
      JoinLacks(parts[1..], sep, c);
    }
  }

  /** After `Replace(s, [c], replacement)` with a `replacement` that lacks `c`, no `c` is left. */
  lemma ReplaceRemoves(s: string, c: char, replacement: string)
    requires Lacks(replacement, c)
    ensures Lacks(Replace(s, [c], replacement), c)
  {
    var parts := Split(s, [c]);
    forall k | 0 <= k < |parts|
      ensures Lacks(parts[k], c)
    {
      AbsentChar(parts[k], c);
    }
    JoinLacks(parts, replacement, c);
  }

  /** Text without the character `c` is a single piece when split on `c`. */
  lemma SplitLacking(s: string, c: char)
    ensures Lacks(s, c) ==> Split(s, [c]) == [s] && SplitOnce(s, [c]) == [s]
  {
    AbsentChar(s, c);
  }

  /** Every piece of a split is a piece of the text: the split never invents characters. */
  lemma {:induction false} SplitPiecesLack(s: string, sep: string, c: char)
    requires |sep| > 0 && Lacks(s, c)
    ensures forall k :: 0 <= k < |Split(s, sep)| ==> Lacks(Split(s, sep)[k], c)
    decreases |s|
  {
    match Find(s, sep)
    case None =>
    case Some(i) =>
      var rest := s[i + |sep|..];
      assert Lacks(rest, c) by {
        forall k | 0 <= k < |rest|
          ensures rest[k] != c
        {
          assert rest[k] == s[i + |sep| + k];
        }
      }
      SplitPiecesLack(rest, sep, c);
  }

  /** `sub` occurs somewhere in `s`. */
  predicate Contains(s: string, sub: string)
  {
    exists i :: 0 <= i <= |s| && OccursAt(s, sub, i)
  }

  /** Text placed between two other strings is contained in the result. */
  lemma ContainsMiddle(a: string, m: string, b: string)
    ensures Contains(a + m + b, m)
  {
    var s := a + m + b;
    assert s[|a|..|a| + |m|] == m;
    assert OccursAt(s, m, |a|);
  }

  /**
   After a piece that holds no `__` and does not end in `_`, the first `__`
   is the one that follows it.
   */
  lemma FindAfterPiece(a: string, rest: string)
    requires |a| > 0 && a[|a| - 1] != '_' && Absent(a, "__")
    ensures Find(a + "__" + rest, "__") == Some(|a|)
  {
    var s := a + "__" + rest;
    assert s[|a|..|a| + 2] == "__";
    forall j: nat | j < |a|
      ensures !OccursAt(s, "__", j)
    {
      if j + 2 <= |a| {
        assert s[j..j + 2] == a[j..j + 2];
        assert !OccursAt(a, "__", j);
      } else {
        assert s[j..j + 2][0] == a[|a| - 1];
      }
    }
    assert OccursAt(s, "__", |a|);
    var r := Find(s, "__");
    assert r.Some? by {
      assert !Absent(s, "__");
    }
    assert !(r.value < |a|);
  }

  /** Splitting such a piece off the front of a `__` join. */
  lemma SplitAfterPiece(a: string, rest: string)
    requires |a| > 0 && a[|a| - 1] != '_' && Absent(a, "__")
    ensures Split(a + "__" + rest, "__") == [a] + Split(rest, "__")
  {
    var s := a + "__" + rest;
    FindAfterPiece(a, rest);
    assert s[..|a|] == a;
    assert s[|a| + 2..] == rest;
  }
}
