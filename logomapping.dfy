/**
 * esportspulse-mobile/scripts/generateLogoMapping.js: write a TypeScript module
 * mapping each `.png` of the logo folder, by a lower-cased key, to a `require`
 * of that file.
 */
module LogoMapping {
  import opened Text
  import opened Files

  const Header: string := "export const teamLogos: Record<string, any> = {\n"
  const Footer: string := "};\n"

  /** Line 11: the first ".png" removed, then lower-cased. */
  function Key(file: string): string {
    Lower(ReplaceFirst(file, ".png", ""))
  }

  /** Line 12, with the original file name in the `require` path. */
  function EntryLine(file: string): string {
    "  \"" + Key(file) + "\": require(\"./" + file + "\"),\n"
  }

  /** The entry lines for `files`, in order. */
  function Entries(files: seq<string>): string {
    ConcatMap(files, EntryLine)
  }

  /** The text lines 9-14 build from a folder listing. */
  function Mapping(listing: seq<string>): string {
    Header + Entries(PngNames(listing)) + Footer
  }

  /** Lines 7-16: filter, accumulate with `+=`, and return what is written to index.ts. */
  method GenerateLogoMapping(listing: seq<string>) returns (mapping: string)
    ensures mapping == Mapping(listing)
  {
    var files := PngNames(listing);
    mapping := Header;
    var i := 0;
    while i < |files|
      invariant 0 <= i <= |files|
      invariant mapping == Header + Entries(files[..i])
    {
      var file := files[i];
      assert Entries(files[..i + 1]) == Entries(files[..i]) + EntryLine(file) by {
        assert files[..i + 1][..i] == files[..i];
      }
      var key := Lower(ReplaceFirst(file, ".png", ""));
      var line := "  \"" + key + "\": require(\"./" + file + "\"),\n";
      assert line == EntryLine(file);
      AppendAssoc(Header, Entries(files[..i]), line);
      mapping := mapping + line;
      i := i + 1;
    }
    assert files[..i] == files;
    mapping := mapping + Footer;
  }

  // ---------------------------------------------------------------- properties

  /** The output always opens with the export line and closes with "};\n". */
  lemma MappingFrame(listing: seq<string>)
    ensures StartsWith(Mapping(listing), Header)
    ensures EndsWith(Mapping(listing), Footer)
  {
    var m := Mapping(listing);
    assert m[..|Header|] == Header;
    assert m[|m| - |Footer|..] == Footer;
  }

  /** A folder without `.png` files gives just the two frame lines. */
  lemma NoPngGivesFrameOnly(listing: seq<string>)
    requires forall i :: 0 <= i < |listing| ==> !EndsWith(listing[i], ".png")
    ensures Mapping(listing) == Header + Footer
  {
    NoPngNames(listing);
  }

  lemma {:induction false} NoPngNames(listing: seq<string>)
    requires forall i :: 0 <= i < |listing| ==> !EndsWith(listing[i], ".png")
    ensures PngNames(listing) == []
  {
    if listing != [] {
      NoPngNames(listing[..|listing| - 1]);
    }
  }

  /** The entries of a concatenation are the concatenated entries: one block per file, in order. */
  lemma EntriesAppend(a: seq<string>, b: seq<string>)
    ensures Entries(a + b) == Entries(a) + Entries(b)
  {
    ConcatMapAppend(a, b, EntryLine);
  }

  /** The listing order carries over: the mapping of two listings is the two entry blocks, in turn. */
  lemma MappingOfConcatenation(a: seq<string>, b: seq<string>)
    ensures Mapping(a + b) == Header + Entries(PngNames(a)) + Entries(PngNames(b)) + Footer
  {
    PngNamesAppend(a, b);
    EntriesAppend(PngNames(a), PngNames(b));
    AppendAssoc(Header, Entries(PngNames(a)), Entries(PngNames(b)));
  }

  /** ".png" has no proper border, so after a stem without ".png" its first occurrence is the suffix. */
  lemma FirstPngIsSuffix(stem: string)
    requires !Contains(stem, ".png")
    ensures IndexOf(stem + ".png", ".png") == |stem|
  {
    var s := stem + ".png";
    assert OccursAt(s, ".png", |stem|) by { assert s[|stem|..|stem| + 4] == ".png"; }
    forall j | 0 <= j < |stem| ensures !OccursAt(s, ".png", j) {
      if j + 4 <= |stem| {
        assert !OccursAt(stem, ".png", j);
        assert s[j..j + 4] == stem[j..j + 4];
      } else {
        var w := s[j..j + 4];
        assert w[|stem| - j] == s[|stem|] == '.';
        assert ".png"[|stem| - j] != '.';
        assert w != ".png";
      }
    }
    IndexOfIsFirst(s, ".png", |stem|);
  }

  lemma IndexOfIsFirst(s: string, p: string, k: int)
    requires OccursAt(s, p, k)
    requires forall j :: 0 <= j < k ==> !OccursAt(s, p, j)
    ensures IndexOf(s, p) == k
  {
  }

  /** The key of "<stem>.png" is the lower-cased stem when the stem holds no ".png". */
  lemma KeyOfPngFile(stem: string)
    requires !Contains(stem, ".png")
    ensures Key(stem + ".png") == Lower(stem)
  {
    var s := stem + ".png";
    FirstPngIsSuffix(stem);
    assert s[..|stem|] + "" + s[|stem| + 4..] == stem;
  }

  /** Only the first ".png" goes: the key of "<stem>.png.png" is the lower-cased "<stem>.png". */
  lemma KeyRemovesFirstOnly(stem: string)
    requires !Contains(stem, ".png")
    ensures Key(stem + ".png" + ".png") == Lower(stem + ".png")
  {
    var s := stem + ".png" + ".png";
    FirstPngIsSuffix(stem);
    assert IndexOf(s, ".png") == |stem| by {
      assert OccursAt(s, ".png", |stem|) by { assert s[|stem|..|stem| + 4] == ".png"; }
      forall j | 0 <= j < |stem| ensures !OccursAt(s, ".png", j) {
        assert !OccursAt(stem + ".png", ".png", j);
        assert s[j..j + 4] == (stem + ".png")[j..j + 4];
      }
      IndexOfIsFirst(s, ".png", |stem|);
    }
    assert s[..|stem|] + "" + s[|stem| + 4..] == stem + ".png";
  }

  /** Lower-casing never produces an ASCII code point other than a small letter unless it was there. */
  lemma {:induction false} LowerKeepsAbsent(s: string, c: char)
    requires (c as int) < 128 && !IsLowerLetter(c)
    requires forall i :: 0 <= i < |s| ==> s[i] != c
    ensures forall i :: 0 <= i < |Lower(s)| ==> Lower(s)[i] != c
  {
    if s != [] {
      LowerKeepsAbsent(s[1..], c);
      var h := LowerChar(s[0]);
      assert forall i :: 0 <= i < |h| ==> h[i] != c;
      assert Lower(s) == h + Lower(s[1..]);
    }
  }

  /** Removing the first ".png" only deletes code points. */
  lemma KeyKeepsAbsent(file: string, c: char)
    requires (c as int) < 128 && !IsLowerLetter(c)
    requires forall i :: 0 <= i < |file| ==> file[i] != c
    ensures forall i :: 0 <= i < |Key(file)| ==> Key(file)[i] != c
  {
    var t := ReplaceFirst(file, ".png", "");
    if Contains(file, ".png") {
      var i := IndexOf(file, ".png");
      assert t == file[..i] + file[i + 4..];
      forall j | 0 <= j < |t| ensures t[j] != c {
        if j < i { assert t[j] == file[j]; } else { assert t[j] == file[j + 4]; }
      }
    }
    LowerKeepsAbsent(t, c);
  }

  /**
   * Reading an entry line back: split at '"', its fields are the indentation, the
   * key, the `require(` text, "./" and the file name, and the closing text; the
   * file name comes back unmodified. The script escapes nothing, so this holds
   * when the name contains no '"'.
   */
  lemma EntryLineRoundTrip(file: string)
    requires forall i :: 0 <= i < |file| ==> file[i] != '"'
    ensures Split(EntryLine(file), '"') == ["  ", Key(file), ": require(", "./" + file, "),\n"]
  {
    KeyKeepsAbsent(file, '"');
    var parts := ["  ", Key(file), ": require(", "./" + file, "),\n"];
    assert '"' !in "./" + file by {
      forall i | 0 <= i < |"./" + file| ensures ("./" + file)[i] != '"' {
        if i >= 2 { assert ("./" + file)[i] == file[i - 2]; }
      }
    }
    EntryLineFields(file);
    SplitJoin(parts, '"');
  }

  /** The entry line is its five fields joined by '"'. */
  lemma EntryLineFields(file: string)
    ensures EntryLine(file) == Join(["  ", Key(file), ": require(", "./" + file, "),\n"], '"')
  {
    var parts := ["  ", Key(file), ": require(", "./" + file, "),\n"];
    var k, q := Key(file), ['"'];
    var j3 := ("./" + file) + q + "),\n";
    var j2 := ": require(" + q + j3;
    var j1 := k + q + j2;
    assert Join(parts[3..], '"') == j3 by {
      assert parts[3..][1..] == ["),\n"];
    }
    assert Join(parts[2..], '"') == j2 by {
      assert parts[2..][1..] == parts[3..];
    }
    assert Join(parts[1..], '"') == j1 by {
      assert parts[1..][1..] == parts[2..];
    }
    assert Join(parts, '"') == "  " + q + j1;
    assert "  \"" == "  " + q;
    assert "\": require(\"./" == q + ": require(" + q + "./";
    assert "\"),\n" == q + "),\n";
    Regroup("  ", q, k, ": require(", "./", file, "),\n");
  }

  lemma Regroup(s0: string, q: string, k: string, r: string, d: string, f: string, c: string)
    ensures s0 + q + k + (q + r + q + d) + f + (q + c) == s0 + q + (k + q + (r + q + ((d + f) + q + c)))
  {
  }

  /** Each entry is one line: the entries of `files` hold exactly |files| line breaks. */
  lemma {:induction false} OneLinePerFile(files: seq<string>)
    requires forall k, i :: 0 <= k < |files| && 0 <= i < |files[k]| ==> files[k][i] != '\n'
    ensures CountChar(Entries(files), '\n') == |files|
  {
    if files != [] {
      var init := files[..|files| - 1];
      var f := files[|files| - 1];
      OneLinePerFile(init);
      EntryLineIsOneLine(f);
      CountCharAppend(Entries(init), EntryLine(f), '\n');
    }
  }

  lemma EntryLineIsOneLine(f: string)
    requires forall i :: 0 <= i < |f| ==> f[i] != '\n'
    ensures CountChar(EntryLine(f), '\n') == 1
  {
    var k := Key(f);
    var a, b, c := "  \"", "\": require(\"./", "\"),\n";
    assert CountChar(k, '\n') == 0 by {
      KeyKeepsAbsent(f, '\n');
      NoCharCount(k, '\n');
    }
    assert CountChar(f, '\n') == 0 by { NoCharCount(f, '\n'); }
    LiteralLineBreaks();
    assert CountChar(a + k, '\n') == 0 by { CountCharAppend(a, k, '\n'); }
    assert CountChar(a + k + b, '\n') == 0 by { CountCharAppend(a + k, b, '\n'); }
    assert CountChar(a + k + b + f, '\n') == 0 by { CountCharAppend(a + k + b, f, '\n'); }
    CountCharAppend(a + k + b + f, c, '\n');
  }

  lemma LiteralLineBreaks()
    ensures CountChar("  \"", '\n') == 0 && CountChar("\": require(\"./", '\n') == 0
    ensures CountChar("\"),\n", '\n') == 1
  {
    NoCharCount("  \"", '\n');
    NoCharCount("\": require(\"./", '\n');
    ClosingLineBreak();
  }

  lemma ClosingLineBreak()
    ensures CountChar("\"),\n", '\n') == 1
  {
    var t, n := "\"),", "\n";
    NoCharCount(t, '\n');
    assert n[1..] == [];
    assert CountChar(n, '\n') == 1;
    assert t + n == "\"),\n";
    CountCharAppend(t, n, '\n');
  }
}
