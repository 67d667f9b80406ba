/**
 * The underscore slug steps shared by the Python tournament-logo cleaner and the
 * JavaScript event-logo processor: every code point outside a class becomes '_',
 * runs of '_' collapse to one, and '_' is removed from the ends.
 */
module Slugs {
  import opened Text

  /** The code points a finished slug may contain. */
  predicate IsSlugChar(c: char) { IsLowerAlnum(c) || c == '_' }

  predicate NoDoubleUnderscore(s: string) {
    forall i :: 0 <= i < |s| - 1 ==> !(s[i] == '_' && s[i + 1] == '_')
  }

  /** What both cleaners promise of the name part they produce. */
  predicate IsSlugBody(s: string) {
    (forall i :: 0 <= i < |s| ==> IsSlugChar(s[i]))
    && NoDoubleUnderscore(s)
    && (s == [] || (s[0] != '_' && s[|s| - 1] != '_'))
  }

  /** Python's `re.sub(r'[^a-zA-Z0-9]', '_', s)`. */
  function UnderscoreNonAsciiAlnum(s: string): (r: string)
    ensures |r| == |s|
    ensures forall i :: 0 <= i < |s| ==> r[i] == if IsAsciiAlnum(s[i]) then s[i] else '_'
  {
    if s == [] then [] else [if IsAsciiAlnum(s[0]) then s[0] else '_'] + UnderscoreNonAsciiAlnum(s[1..])
  }

  /** JavaScript's `replace(/[^a-z0-9]/g, '_')`. */
  function UnderscoreNonLowerAlnum(s: string): (r: string)
    ensures |r| == |s|
    ensures forall i :: 0 <= i < |s| ==> r[i] == if IsLowerAlnum(s[i]) then s[i] else '_'
  {
    if s == [] then [] else [if IsLowerAlnum(s[0]) then s[0] else '_'] + UnderscoreNonLowerAlnum(s[1..])
  }

  /** After lower-casing, the Python class `[^a-zA-Z0-9]` and the JavaScript class `[^a-z0-9]` agree. */
  lemma UnderscoreClassesAgreeAfterLower(s: string)
    ensures UnderscoreNonAsciiAlnum(Lower(s)) == UnderscoreNonLowerAlnum(Lower(s))
  {
    LowerHasNoCapital(s);
  }

  /** `re.sub(r'_+', '_', s)` / `replace(/_+/g, '_')`: each maximal run of '_' becomes one '_'. */
  function Collapse(s: string): (r: string)
    ensures |r| <= |s|
    ensures s != [] ==> r != [] && r[0] == s[0] && r[|r| - 1] == s[|s| - 1]
    ensures NoDoubleUnderscore(r)
  {
    if |s| <= 1 then s
    else if s[0] == '_' && s[1] == '_' then Collapse(s[1..])
    else [s[0]] + Collapse(s[1..])
  }

  /** `s` with every '_' deleted. */
  function WithoutUnderscores(s: string): string {
    if s == [] then [] else (if s[0] == '_' then [] else [s[0]]) + WithoutUnderscores(s[1..])
  }

  /** Collapsing keeps every other code point, in order. */
  lemma {:induction false} CollapseKeepsOthers(s: string)
    ensures WithoutUnderscores(Collapse(s)) == WithoutUnderscores(s)
  {
    if |s| > 1 {
      CollapseKeepsOthers(s[1..]);
      if !(s[0] == '_' && s[1] == '_') {
        var t := Collapse(s[1..]);
        assert ([s[0]] + t)[1..] == t;
      }
    }
  }

  /** On text without a run, collapsing does nothing. */
  lemma {:induction false} CollapseNoRun(s: string)
    requires NoDoubleUnderscore(s)
    ensures Collapse(s) == s
  {
    if |s| > 1 {
      assert NoDoubleUnderscore(s[1..]);
      CollapseNoRun(s[1..]);
      assert s == [s[0]] + s[1..];
    }
  }

  /** Collapse distributes over a split point that is not inside a run. */
  lemma {:induction false} CollapseAppend(a: string, b: string)
    requires a == [] || b == [] || a[|a| - 1] != '_' || b[0] != '_'
    ensures Collapse(a + b) == Collapse(a) + Collapse(b)
  {
    if a == [] {
      assert a + b == b;
    } else if b == [] {
      assert a + b == a;
    } else if |a| == 1 {
      assert a + b == [a[0]] + b;
      assert (a + b)[1..] == b;
    } else {
      var t := a[1..];
      assert (a + b)[1..] == t + b;
      assert (a + b)[0] == a[0] && (a + b)[1] == t[0];
      CollapseAppend(t, b);
      if !(a[0] == '_' && t[0] == '_') {
        AppendAssoc([a[0]], Collapse(t), Collapse(b));
      }
    }
  }

  function StripLeading(s: string): (r: string)
    ensures |r| <= |s| && r == s[|s| - |r|..]
    ensures r == [] || r[0] != '_'
    ensures forall i :: 0 <= i < |s| - |r| ==> s[i] == '_'
  {
    if s != [] && s[0] == '_' then StripLeading(s[1..]) else s
  }

  function StripTrailing(s: string): (r: string)
    ensures |r| <= |s| && r == s[..|r|]
    ensures r == [] || r[|r| - 1] != '_'
    ensures forall i :: |r| <= i < |s| ==> s[i] == '_'
  {
    if s != [] && s[|s| - 1] == '_' then StripTrailing(s[..|s| - 1]) else s
  }

  /** Python's `s.strip('_')`: every leading and trailing '_' removed. */
  function StripAll(s: string): (r: string)
    ensures r == [] || (r[0] != '_' && r[|r| - 1] != '_')
    ensures |r| <= |s|
  {
    StripTrailing(StripLeading(s))
  }

  /**
   * JavaScript's `replace(/^_|_$/g, '')`: at most one '_' removed at the start and
   * at most one at the end (a lone "_" is removed once).
   */
  function StripOne(s: string): (r: string)
    ensures |r| <= |s|
  {
    var a := if s != [] && s[0] == '_' then s[1..] else s;
    if a != [] && a[|a| - 1] == '_' then a[..|a| - 1] else a
  }

  lemma StripLeadingNoRun(s: string)
    requires NoDoubleUnderscore(s)
    ensures StripLeading(s) == if s != [] && s[0] == '_' then s[1..] else s
  {
    if s != [] && s[0] == '_' {
      assert s[1..] == [] || s[1] != '_';
    }
  }

  lemma StripTrailingNoRun(s: string)
    requires NoDoubleUnderscore(s)
    ensures StripTrailing(s) == if s != [] && s[|s| - 1] == '_' then s[..|s| - 1] else s
  {
    if s != [] && s[|s| - 1] == '_' {
      assert |s| == 1 || s[|s| - 2] != '_';
    }
  }

  /** Once runs are collapsed, stripping one '_' at each end strips them all. */
  lemma StripOneSufficesAfterCollapse(s: string)
    requires NoDoubleUnderscore(s)
    ensures StripOne(s) == StripAll(s)
  {
    StripLeadingNoRun(s);
    var a := StripLeading(s);
    assert NoDoubleUnderscore(a);
    StripTrailingNoRun(a);
  }

  lemma {:induction false} CollapseSlugChars(s: string)
    requires forall i :: 0 <= i < |s| ==> IsSlugChar(s[i])
    ensures forall i :: 0 <= i < |Collapse(s)| ==> IsSlugChar(Collapse(s)[i])
  {
    if |s| > 1 {
      CollapseSlugChars(s[1..]);
    }
  }

  /** A stretch of text without runs over the slug alphabet is again such text. */
  lemma SliceKeepsSlugText(s: string, lo: int, hi: int)
    requires 0 <= lo <= hi <= |s|
    requires forall i :: 0 <= i < |s| ==> IsSlugChar(s[i])
    requires NoDoubleUnderscore(s)
    ensures forall i :: 0 <= i < hi - lo ==> IsSlugChar(s[lo..hi][i])
    ensures NoDoubleUnderscore(s[lo..hi])
  {
    var u := s[lo..hi];
    assert forall i :: 0 <= i < |u| ==> u[i] == s[lo + i];
  }

  /** Stripping the ends of text without runs gives a slug body when the alphabet is right. */
  lemma StripAllSlugBody(s: string)
    requires forall i :: 0 <= i < |s| ==> IsSlugChar(s[i])
    requires NoDoubleUnderscore(s)
    ensures IsSlugBody(StripAll(s))
  {
    var t := StripLeading(s);
    SliceKeepsSlugText(s, |s| - |t|, |s|);
    var r := StripTrailing(t);
    SliceKeepsSlugText(t, 0, |r|);
  }

  /** A slug body is left alone by all the steps. */
  lemma SlugBodyFixed(s: string)
    requires IsSlugBody(s)
    ensures UnderscoreNonAsciiAlnum(s) == s && UnderscoreNonLowerAlnum(s) == s
    ensures Collapse(s) == s
    ensures StripAll(s) == s && StripOne(s) == s
  {
    UnderscoreOfSlugChars(s);
    CollapseNoRun(s);
    StripOfSlugBody(s);
  }

  lemma UnderscoreOfSlugChars(s: string)
    requires forall i :: 0 <= i < |s| ==> IsSlugChar(s[i])
    ensures UnderscoreNonAsciiAlnum(s) == s && UnderscoreNonLowerAlnum(s) == s
  {
    assert forall i :: 0 <= i < |s| ==> UnderscoreNonAsciiAlnum(s)[i] == s[i];
    assert forall i :: 0 <= i < |s| ==> UnderscoreNonLowerAlnum(s)[i] == s[i];
  }

  lemma StripOfSlugBody(s: string)
    requires s == [] || (s[0] != '_' && s[|s| - 1] != '_')
    ensures StripAll(s) == s && StripOne(s) == s
  {
    assert StripLeading(s) == s;
    assert StripTrailing(s) == s;
  }

  lemma {:induction false} LowerOfSlugChars(s: string)
    requires forall i :: 0 <= i < |s| ==> IsSlugChar(s[i])
    ensures Lower(s) == s
  {
    if s != [] {
      assert forall i :: 0 <= i < |s[1..]| ==> IsSlugChar(s[1..][i]);
      LowerOfSlugChars(s[1..]);
    }
  }
}
