/** Node's `path.extname` and `path.basename(name, ext)` on POSIX paths. */
module NodePath {
  import opened Text

  function StripTrailingSlashes(p: string): (r: string)
    ensures |r| <= |p| && r == p[..|r|]
    ensures r == [] || r[|r| - 1] != '/'
  {
    if p != [] && p[|p| - 1] == '/' then StripTrailingSlashes(p[..|p| - 1]) else p
  }

  /** The last path component, trailing slashes ignored. */
  function LastSegment(p: string): (r: string)
    ensures forall i :: 0 <= i < |r| ==> r[i] != '/'
    ensures EndsWith(StripTrailingSlashes(p), r)
  {
    var t := StripTrailingSlashes(p);
    t[LastIndexOfChar(t, '/') + 1..]
  }

  /**
   * `path.extname` of one component: from the last '.' to the end, unless that
   * '.' is the first code point or the component is "..".
   */
  function ExtnameOfSegment(seg: string): (r: string)
    ensures r == [] || (r[0] == '.' && forall i :: 1 <= i < |r| ==> r[i] != '.')
    ensures EndsWith(seg, r)
  {
    var d := LastIndexOfChar(seg, '.');
    if d <= 0 || seg == ".." then "" else seg[d..]
  }

  function Extname(p: string): (r: string)
    ensures r == [] || (r[0] == '.' && forall i :: 1 <= i < |r| ==> r[i] != '.' && r[i] != '/')
  {
    var seg := LastSegment(p);
    var r := ExtnameOfSegment(seg);
    assert forall i :: 0 <= i < |r| ==> r[i] == seg[|seg| - |r| + i];
    r
  }

  /** The extension is the tail of the path with its trailing slashes removed. */
  lemma ExtnameIsSuffix(p: string)
    ensures EndsWith(StripTrailingSlashes(p), Extname(p))
  {
    SuffixOfSuffix(StripTrailingSlashes(p), LastSegment(p), ExtnameOfSegment(LastSegment(p)));
  }

  /**
   * `path.basename(name, ext)` for a directory entry name (which never contains
   * '/'): the name without `ext` when it ends with `ext` case-sensitively, and ""
   * when the name is `ext` itself.
   */
  function Basename(name: string, ext: string): (r: string)
    ensures name != ext && ext != [] && EndsWith(name, ext) ==> r + ext == name
    ensures !EndsWith(name, ext) || ext == [] ==> r == name
  {
    if name == ext then ""
    else if ext != [] && EndsWith(name, ext) then name[..|name| - |ext|]
    else name
  }

  /** A stem followed by a non-empty extension loses exactly that extension. */
  lemma BasenameOfAppend(b: string, e: string)
    requires b != [] && e != []
    ensures Basename(b + e, e) == b
  {
    var t := b + e;
    assert t[|t| - |e|..] == e;
    assert t[..|t| - |e|] == b;
  }

  lemma SuffixOfSuffix(a: string, b: string, c: string)
    requires EndsWith(a, b) && EndsWith(b, c)
    ensures EndsWith(a, c)
  {
    assert a[|a| - |c|..] == b[|b| - |c|..];
  }

  /** A component starting with '.' and containing no other '.' has no extension. */
  lemma ExtnameOfDotName(p: string)
    requires p != [] && p[0] == '.'
    requires forall i :: 0 <= i < |p| ==> p[i] != '/'
    requires forall i :: 1 <= i < |p| ==> p[i] != '.'
    ensures Extname(p) == ""
  {
    assert StripTrailingSlashes(p) == p;
    assert LastIndexOfChar(p, '/') == -1;
    assert LastSegment(p) == p;
    assert LastIndexOfChar(p, '.') == 0;
  }

  /** A non-empty dot-free stem and an extension: `extname` finds that extension. */
  lemma ExtnameOfStemAndExt(b: string, e: string)
    requires b != [] && forall i :: 0 <= i < |b| ==> b[i] != '.' && b[i] != '/'
    requires |e| >= 2 && e[0] == '.' && forall i :: 1 <= i < |e| ==> e[i] != '.' && e[i] != '/'
    ensures Extname(b + e) == e
  {
    var p := b + e;
    assert forall i :: 0 <= i < |p| ==> p[i] != '/' by {
      forall i | 0 <= i < |p| ensures p[i] != '/' {
        if i < |b| { assert p[i] == b[i]; } else { assert p[i] == e[i - |b|]; }
      }
    }
    assert forall j :: |b| < j < |p| ==> p[j] != '.' by {
      forall j | |b| < j < |p| ensures p[j] != '.' {
        assert p[j] == e[j - |b|];
      }
    }
    assert p[|p| - 1] != '/';
    assert StripTrailingSlashes(p) == p;
    assert LastIndexOfChar(p, '/') == -1;
    assert LastSegment(p) == p;
    assert p[|b|] == '.';
    assert LastIndexOfChar(p, '.') == |b|;
    assert p != ".." by { assert |p| >= 3; }
    assert p[|b|..] == e;
  }
}
