/**
 * String primitives of JavaScript and Python that the scripts and pages rely on:
 * case mapping (ASCII plus the Turkish letters the project handles), `trim`,
 * `startsWith` / `endsWith` / `includes` / `indexOf`, `replace` with a string
 * pattern (first occurrence only), single-character replace-all, `split` and
 * `join` on one character. Strings are sequences of Unicode code points.
 */
module Text {

  // ---------------------------------------------------------------- characters

  predicate IsDigit(c: char) { '0' <= c <= '9' }
  predicate IsLowerLetter(c: char) { 'a' <= c <= 'z' }
  predicate IsUpperLetter(c: char) { 'A' <= c <= 'Z' }
  /** The class `[a-z0-9]`. */
  predicate IsLowerAlnum(c: char) { IsLowerLetter(c) || IsDigit(c) }
  /** The class `[a-zA-Z0-9]`. */
  predicate IsAsciiAlnum(c: char) { IsLowerAlnum(c) || IsUpperLetter(c) }

  predicate AllLowerAlnum(s: string) { forall i :: 0 <= i < |s| ==> IsLowerAlnum(s[i]) }

  /** U+0307 COMBINING DOT ABOVE, produced when 'İ' is lower-cased. */
  const DotAbove: char := '\U{0307}'

  /**
   * `toLowerCase()` / `str.lower()` on one code point: ASCII capitals, the Turkish
   * capitals Ş Ç Ü Ö Ğ, and İ, which both languages map to "i" followed by U+0307.
   * Every other code point is left as it is.
   */
  function LowerChar(c: char): (r: string)
    ensures |r| >= 1
    ensures IsUpperLetter(c) ==> r == [(c as int + 32) as char]
    ensures !IsUpperLetter(c) && c !in "ŞÇÜÖĞİ" ==> r == [c]
  {
    if IsUpperLetter(c) then [(c as int + 32) as char]
    else if c == 'Ş' then "ş"
    else if c == 'Ç' then "ç"
    else if c == 'Ü' then "ü"
    else if c == 'Ö' then "ö"
    else if c == 'Ğ' then "ğ"
    else if c == 'İ' then ['i', DotAbove]
    else [c]
  }

  function Lower(s: string): string {
    if s == [] then [] else LowerChar(s[0]) + Lower(s[1..])
  }

  /** `toUpperCase()` on one code point: ASCII small letters, ş ç ü ö ğ, and dotless ı, which maps to I. */
  function UpperChar(c: char): (r: char)
    ensures IsLowerLetter(c) ==> r == (c as int - 32) as char
    ensures !IsLowerLetter(c) && c !in "şçüöğı" ==> r == c
  {
    if IsLowerLetter(c) then (c as int - 32) as char
    else if c == 'ş' then 'Ş'
    else if c == 'ç' then 'Ç'
    else if c == 'ü' then 'Ü'
    else if c == 'ö' then 'Ö'
    else if c == 'ğ' then 'Ğ'
    else if c == 'ı' then 'I'
    else c
  }

  function Upper(s: string): (r: string)
    ensures |r| == |s|
    ensures forall i :: 0 <= i < |s| ==> r[i] == UpperChar(s[i])
  {
    if s == [] then [] else [UpperChar(s[0])] + Upper(s[1..])
  }

  lemma {:induction false} LowerAppend(a: string, b: string)
    ensures Lower(a + b) == Lower(a) + Lower(b)
  {
    if a == [] {
      assert a + b == b;
    } else {
      assert (a + b)[1..] == a[1..] + b;
      LowerAppend(a[1..], b);
    }
  }

  lemma LowerCharIsLower(c: char)
    ensures Lower(LowerChar(c)) == LowerChar(c)
  {
    var r := LowerChar(c);
    if |r| == 1 {
      assert Lower(r) == LowerChar(r[0]) + Lower([]);
    } else {
      assert r == ['i', DotAbove];
      assert Lower(r) == LowerChar('i') + Lower([DotAbove]);
      assert Lower([DotAbove]) == LowerChar(DotAbove) + Lower([]);
    }
  }

  /** Lower-casing twice is lower-casing once. */
  lemma {:induction false} LowerIdempotent(s: string)
    ensures Lower(Lower(s)) == Lower(s)
  {
    if s != [] {
      LowerIdempotent(s[1..]);
      LowerCharIsLower(s[0]);
      LowerAppend(LowerChar(s[0]), Lower(s[1..]));
    }
  }

  /** Lower-casing leaves `[a-z0-9]` text unchanged. */
  lemma {:induction false} LowerOfLowerAlnum(s: string)
    requires AllLowerAlnum(s)
    ensures Lower(s) == s
  {
    if s != [] {
      assert AllLowerAlnum(s[1..]);
      LowerOfLowerAlnum(s[1..]);
    }
  }

  /** The texts `f(x)` of the elements of `xs`, concatenated in order. */
  function ConcatMap<T>(xs: seq<T>, f: T -> string): string {
    if xs == [] then [] else ConcatMap(xs[..|xs| - 1], f) + f(xs[|xs| - 1])
  }

  /** The texts of a concatenation are the concatenated texts. */
  lemma {:induction false} ConcatMapAppend<T>(a: seq<T>, b: seq<T>, f: T -> string)
    ensures ConcatMap(a + b, f) == ConcatMap(a, f) + ConcatMap(b, f)
  {
    if b == [] {
      assert a + b == a;
    } else {
      var init, x := b[..|b| - 1], b[|b| - 1];
      ConcatMapAppend(a, init, f);
      assert (a + b)[..|a + b| - 1] == a + init;
      assert (a + b)[|a + b| - 1] == x;
      AppendAssoc(ConcatMap(a, f), ConcatMap(init, f), f(x));
    }
  }

  /** A text ending in `p` is its head followed by `p`. */
  lemma SplitAtSuffix(s: string, p: string)
    requires EndsWith(s, p)
    ensures s == s[..|s| - |p|] + p
  {
  }

  /** Concatenation regrouped; kept apart so that larger proofs need not rediscover it. */
  lemma AppendAssoc<T>(a: seq<T>, b: seq<T>, c: seq<T>)
    ensures a + b + c == a + (b + c)
  {
  }

  /** A text whose code points each lower-case to one code point, those of `u`. */
  lemma {:induction false} LowerCharwise(s: string, u: string)
    requires |s| == |u| && forall i :: 0 <= i < |s| ==> LowerChar(s[i]) == [u[i]]
    ensures Lower(s) == u
  {
    if s != [] {
      LowerCharwise(s[1..], u[1..]);
      assert u == [u[0]] + u[1..];
    }
  }

  /** Lower-casing never turns a code point into an ASCII capital. */
  lemma {:induction false} LowerHasNoCapital(s: string)
    ensures forall i :: 0 <= i < |Lower(s)| ==> !IsUpperLetter(Lower(s)[i])
  {
    if s != [] {
      LowerHasNoCapital(s[1..]);
      var h := LowerChar(s[0]);
      assert forall i :: 0 <= i < |h| ==> !IsUpperLetter(h[i]);
      assert Lower(s) == h + Lower(s[1..]);
    }
  }

  // ---------------------------------------------------------------- whitespace

  /** The code points that JavaScript's `trim()` and the class `\s` treat as white space. */
  predicate IsJsSpace(c: char) {
    ('\U{0009}' <= c <= '\U{000D}') || c == ' ' || c == '\U{00A0}' || c == '\U{1680}'
    || ('\U{2000}' <= c <= '\U{200A}') || c == '\U{2028}' || c == '\U{2029}'
    || c == '\U{202F}' || c == '\U{205F}' || c == '\U{3000}' || c == '\U{FEFF}'
  }

  function TrimStart(s: string): (r: string)
    ensures |r| <= |s| && r == s[|s| - |r|..]
    ensures r == [] || !IsJsSpace(r[0])
    ensures forall i :: 0 <= i < |s| - |r| ==> IsJsSpace(s[i])
  {
    if s != [] && IsJsSpace(s[0]) then TrimStart(s[1..]) else s
  }

  function TrimEnd(s: string): (r: string)
    ensures |r| <= |s| && r == s[..|r|]
    ensures r == [] || !IsJsSpace(r[|r| - 1])
    ensures forall i :: |r| <= i < |s| ==> IsJsSpace(s[i])
  {
    if s != [] && IsJsSpace(s[|s| - 1]) then TrimEnd(s[..|s| - 1]) else s
  }

  /** JavaScript `trim()`. */
  function Trim(s: string): (r: string)
    ensures r == [] <==> forall i :: 0 <= i < |s| ==> IsJsSpace(s[i])
  {
    var t := TrimStart(s);
    assert t == [] || !IsJsSpace(s[|s| - |t|]);
    TrimEnd(t)
  }

  // ---------------------------------------------------------------- searching

  predicate StartsWith(s: string, p: string) { |p| <= |s| && s[..|p|] == p }
  predicate EndsWith(s: string, p: string) { |p| <= |s| && s[|s| - |p|..] == p }

  /** `p` occurs in `s` at position `i`. */
  predicate OccursAt(s: string, p: string, i: int) {
    0 <= i && i + |p| <= |s| && s[i..i + |p|] == p
  }

  function IndexFrom(s: string, p: string, i: nat): (r: int)
    requires i <= |s|
    ensures r == -1 || (i <= r && OccursAt(s, p, r))
    ensures forall j :: i <= j && (r == -1 || j < r) ==> !OccursAt(s, p, j)
    decreases |s| - i
  {
    if i + |p| > |s| then -1
    else if s[i..i + |p|] == p then i
    else if i == |s| then -1
    else IndexFrom(s, p, i + 1)
  }

  /** JavaScript `indexOf` with a string argument: the first occurrence, or -1. */
  function IndexOf(s: string, p: string): (r: int)
    ensures r == -1 || OccursAt(s, p, r)
    ensures forall j :: 0 <= j && (r == -1 || j < r) ==> !OccursAt(s, p, j)
  {
    IndexFrom(s, p, 0)
  }

  /** JavaScript `includes`. */
  predicate Contains(s: string, p: string) { IndexOf(s, p) >= 0 }

  /** JavaScript `replace(p, q)` with a string pattern: only the FIRST occurrence is replaced. */
  function ReplaceFirst(s: string, p: string, q: string): (r: string)
    ensures !Contains(s, p) ==> r == s
    ensures Contains(s, p) ==>
      var i := IndexOf(s, p); r == s[..i] + q + s[i + |p|..]
  {
    var i := IndexOf(s, p);
    if i < 0 then s else s[..i] + q + s[i + |p|..]
  }

  /** `replace(/a/g, b)` for a single code point `a`. */
  function ReplaceAllChar(s: string, a: char, b: char): (r: string)
    ensures |r| == |s|
    ensures forall i :: 0 <= i < |s| ==> r[i] == (if s[i] == a then b else s[i])
  {
    if s == [] then [] else [if s[0] == a then b else s[0]] + ReplaceAllChar(s[1..], a, b)
  }

  lemma ReplaceAllCharAbsent(s: string, a: char, b: char)
    requires a !in s
    ensures ReplaceAllChar(s, a, b) == s
  {
  }

  function LastIndexOfChar(s: string, c: char): (r: int)
    ensures -1 <= r < |s|
    ensures r >= 0 ==> s[r] == c
    ensures forall j :: r < j < |s| ==> s[j] != c
  {
    if s == [] then -1
    else if s[|s| - 1] == c then |s| - 1
    else LastIndexOfChar(s[..|s| - 1], c)
  }

  function CountChar(s: string, c: char): nat {
    if s == [] then 0 else (if s[0] == c then 1 else 0) + CountChar(s[1..], c)
  }

  // ---------------------------------------------------------------- split and join

  function FirstIndexOfChar(s: string, c: char): (r: int)
    ensures -1 <= r < |s|
    ensures r >= 0 ==> s[r] == c
    ensures forall j :: 0 <= j < |s| && (r == -1 || j < r) ==> s[j] != c
  {
    if s == [] then -1
    else if s[0] == c then 0
    else var k := FirstIndexOfChar(s[1..], c); if k < 0 then -1 else k + 1
  }

  /** JavaScript `split(c)` with a one-character separator: always at least one piece. */
  function Split(s: string, c: char): (parts: seq<string>)
    ensures |parts| >= 1
    ensures forall k :: 0 <= k < |parts| ==> c !in parts[k]
    decreases |s|
  {
    var i := FirstIndexOfChar(s, c);
    if i < 0 then [s] else [s[..i]] + Split(s[i + 1..], c)
  }

  /** JavaScript `join(c)`: the pieces with one separator between neighbours; "" for no pieces. */
  function Join(parts: seq<string>, c: char): string {
    if parts == [] then ""
    else if |parts| == 1 then parts[0]
    else parts[0] + [c] + Join(parts[1..], c)
  }

  /** Joining the pieces of a split gives back the original text. */
  lemma {:induction false} JoinSplit(s: string, c: char)
    ensures Join(Split(s, c), c) == s
    decreases |s|
  {
    var i := FirstIndexOfChar(s, c);
    if i >= 0 {
      var rest := s[i + 1..];
      var parts := Split(s, c);
      assert parts == [s[..i]] + Split(rest, c);
      assert parts[1..] == Split(rest, c);
      JoinSplit(rest, c);
      assert Join(parts, c) == s[..i] + [c] + Join(Split(rest, c), c);
      assert s == s[..i] + [c] + rest;
    }
  }

  /** Splitting a join of separator-free pieces gives back the pieces. */
  lemma {:induction false} SplitJoin(parts: seq<string>, c: char)
    requires |parts| >= 1
    requires forall k :: 0 <= k < |parts| ==> c !in parts[k]
    ensures Split(Join(parts, c), c) == parts
  {
    if |parts| > 1 {
      var rest := Join(parts[1..], c);
      var s := parts[0] + [c] + rest;
      assert s[|parts[0]|] == c;
      assert forall j :: 0 <= j < |parts[0]| ==> s[j] != c by {
        forall j | 0 <= j < |parts[0]| ensures s[j] != c {
          assert s[j] == parts[0][j];
        }
      }
      assert FirstIndexOfChar(s, c) == |parts[0]|;
      assert s[..|parts[0]|] == parts[0];
      assert s[|parts[0]| + 1..] == rest;
      SplitJoin(parts[1..], c);
    } else {
      assert c !in parts[0];
    }
  }

  /** A split has one more piece than the text has separators. */
  lemma {:induction false} SplitCount(s: string, c: char)
    ensures |Split(s, c)| == CountChar(s, c) + 1
    decreases |s|
  {
    var i := FirstIndexOfChar(s, c);
    if i < 0 {
      NoCharCount(s, c);
    } else {
      var head, rest := s[..i], s[i + 1..];
      assert CountChar(s, c) == CountChar(head, c) + 1 + CountChar(rest, c) by {
        assert s == head + ([c] + rest);
        CountCharAppend(head, [c] + rest, c);
        assert ([c] + rest)[1..] == rest;
      }
      assert CountChar(head, c) == 0 by {
        NoCharCount(head, c);
      }
      assert |Split(s, c)| == 1 + |Split(rest, c)|;
      SplitCount(rest, c);
    }
  }

  lemma {:induction false} NoCharCount(s: string, c: char)
    requires forall j :: 0 <= j < |s| ==> s[j] != c
    ensures CountChar(s, c) == 0
  {
    if s != [] { NoCharCount(s[1..], c); }
  }

  lemma {:induction false} CountCharAppend(a: string, b: string, c: char)
    ensures CountChar(a + b, c) == CountChar(a, c) + CountChar(b, c)
  {
    if a == [] {
      assert a + b == b;
    } else {
      assert (a + b)[1..] == a[1..] + b;
      CountCharAppend(a[1..], b, c);
    }
  }
}
