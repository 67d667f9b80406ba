/**
 * The `normalize` chain that four places of the code base define identically
 * (the two logo-renaming scripts, the matches page and the events page):
 * lower-case, transliterate ş ı ç ü ö ğ to s i c u o g, then delete every code
 * point outside `[a-z0-9]`. It is defined once here and shared.
 */
module Normalization {
  import opened Text

  /** The six global single-letter replacements, applied in the source's order. */
  function FoldTurkish(s: string): (r: string)
    ensures |r| == |s|
  {
    ReplaceAllChar(ReplaceAllChar(ReplaceAllChar(ReplaceAllChar(ReplaceAllChar(ReplaceAllChar(
      s, 'ş', 's'), 'ı', 'i'), 'ç', 'c'), 'ü', 'u'), 'ö', 'o'), 'ğ', 'g')
  }

  /** `replace(/[^a-z0-9]/g, '')`. */
  function KeepLowerAlnum(s: string): (r: string)
    ensures AllLowerAlnum(r)
    ensures |r| <= |s|
  {
    if s == [] then [] else (if IsLowerAlnum(s[0]) then [s[0]] else []) + KeepLowerAlnum(s[1..])
  }

  function Normalize(s: string): (r: string)
    ensures AllLowerAlnum(r)
  {
    KeepLowerAlnum(FoldTurkish(Lower(s)))
  }

  /**
   * What one code point of the input contributes to the normalized name, written
   * as a table: ASCII letters and digits survive (capitals lower-cased), the
   * Turkish letters in either case become their ASCII base letter (the dot of İ
   * is dropped), and everything else vanishes.
   */
  function Contribution(c: char): (r: string)
    ensures |r| <= 1
  {
    if IsLowerAlnum(c) then [c]
    else if IsUpperLetter(c) then [(c as int + 32) as char]
    else if c == 'ş' || c == 'Ş' then "s"
    else if c == 'ç' || c == 'Ç' then "c"
    else if c == 'ü' || c == 'Ü' then "u"
    else if c == 'ö' || c == 'Ö' then "o"
    else if c == 'ğ' || c == 'Ğ' then "g"
    else if c == 'ı' || c == 'İ' then "i"
    else []
  }

  /** The reference definition: the contributions of the input's code points, in order. */
  function NormalizeByTable(s: string): string {
    if s == [] then [] else Contribution(s[0]) + NormalizeByTable(s[1..])
  }

  lemma {:induction false} KeepAppend(a: string, b: string)
    ensures KeepLowerAlnum(a + b) == KeepLowerAlnum(a) + KeepLowerAlnum(b)
  {
    if a == [] {
      assert a + b == b;
    } else {
      var t := a[1..];
      assert (a + b)[0] == a[0];
      assert (a + b)[1..] == t + b;
      KeepAppend(t, b);
      var h := if IsLowerAlnum(a[0]) then [a[0]] else [];
      AppendAssoc(h, KeepLowerAlnum(t), KeepLowerAlnum(b));
    }
  }

  lemma FoldAppend(a: string, b: string)
    ensures FoldTurkish(a + b) == FoldTurkish(a) + FoldTurkish(b)
  {
  }

  /** Normalizing a concatenation normalizes the parts separately. */
  lemma NormalizeAppend(a: string, b: string)
    ensures Normalize(a + b) == Normalize(a) + Normalize(b)
  {
    LowerAppend(a, b);
    FoldAppend(Lower(a), Lower(b));
    KeepAppend(FoldTurkish(Lower(a)), FoldTurkish(Lower(b)));
  }

  /** The six replacements seen on one code point. */
  function FoldChar(c: char): char {
    if c == 'ş' then 's' else if c == 'ı' then 'i' else if c == 'ç' then 'c'
    else if c == 'ü' then 'u' else if c == 'ö' then 'o' else if c == 'ğ' then 'g' else c
  }

  lemma FoldPointwise(s: string)
    ensures forall i :: 0 <= i < |s| ==> FoldTurkish(s)[i] == FoldChar(s[i])
  {
  }

  lemma KeepOne(c: char)
    ensures KeepLowerAlnum([c]) == if IsLowerAlnum(c) then [c] else []
  {
    assert [c][1..] == [];
  }

  /** The character-level effect of the chain when lower-casing gives one code point. */
  lemma SingleContribution(c: char)
    requires c != 'İ'
    ensures |LowerChar(c)| == 1
    ensures Contribution(c) == var f := FoldChar(LowerChar(c)[0]); if IsLowerAlnum(f) then [f] else []
  {
    if IsUpperLetter(c) {
      var d := (c as int + 32) as char;
      assert IsLowerLetter(d);
      assert FoldChar(d) == d;
    } else if c == 'Ş' || c == 'Ç' || c == 'Ü' || c == 'Ö' || c == 'Ğ' {
    } else if c == 'ş' || c == 'ç' || c == 'ü' || c == 'ö' || c == 'ğ' || c == 'ı' {
    } else {
      assert LowerChar(c) == [c];
      assert FoldChar(c) == c;
    }
  }

  lemma NormalizeOneChar(c: char)
    ensures Normalize([c]) == Contribution(c)
  {
    assert Lower([c]) == LowerChar(c) by {
      assert Lower([c]) == LowerChar(c) + Lower([]);
    }
    if c != 'İ' {
      NormalizeSingle(c);
    } else {
      NormalizeDottedCapitalI();
    }
  }

  lemma NormalizeSingle(c: char)
    requires c != 'İ' && Lower([c]) == LowerChar(c)
    ensures Normalize([c]) == Contribution(c)
  {
    var l := LowerChar(c);
    var f := FoldTurkish(l);
    FoldPointwise(l);
    SingleContribution(c);
    assert f == [FoldChar(l[0])];
    KeepOne(f[0]);
  }

  lemma KeepDottedI()
    ensures KeepLowerAlnum(['i', DotAbove]) == "i"
  {
    var l := ['i', DotAbove];
    assert l[1..] == [DotAbove];
    KeepOne(DotAbove);
  }

  lemma NormalizeDottedCapitalI()
    requires Lower(['İ']) == LowerChar('İ')
    ensures Normalize(['İ']) == Contribution('İ')
  {
    var l := ['i', DotAbove];
    assert LowerChar('İ') == l;
    var f := FoldTurkish(l);
    FoldPointwise(l);
    assert f[0] == 'i' && f[1] == DotAbove;
    assert f == l;
    KeepDottedI();
  }


  /** The replace chain computes exactly the table. */
  lemma {:induction false} NormalizeIsTable(s: string)
    ensures Normalize(s) == NormalizeByTable(s)
  {
    if s != [] {
      assert s == [s[0]] + s[1..];
      NormalizeAppend([s[0]], s[1..]);
      NormalizeOneChar(s[0]);
      NormalizeIsTable(s[1..]);
    }
  }

  lemma {:induction false} KeepOfLowerAlnum(s: string)
    requires AllLowerAlnum(s)
    ensures KeepLowerAlnum(s) == s
  {
    if s != [] {
      assert AllLowerAlnum(s[1..]);
      KeepOfLowerAlnum(s[1..]);
    }
  }

  /** A name is left unchanged by `normalize` exactly when it is already `[a-z0-9]*`. */
  lemma NormalizeFixedPoint(s: string)
    ensures Normalize(s) == s <==> AllLowerAlnum(s)
  {
    if AllLowerAlnum(s) {
      LowerOfLowerAlnum(s);
      assert FoldTurkish(s) == s;
      KeepOfLowerAlnum(s);
    }
  }

  /** Normalizing twice is normalizing once. */
  lemma NormalizeIdempotent(s: string)
    ensures Normalize(Normalize(s)) == Normalize(s)
  {
    NormalizeFixedPoint(Normalize(s));
  }
}
