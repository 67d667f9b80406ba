/**
 * scripts/clean_tournament_logos.py: copy every `*.png` of the public events
 * folder, except the default logo, into `processed/` under a cleaned name.
 */
module CleanTournamentLogos {
  import opened Wrappers
  import opened Text
  import opened Slugs
  import opened Files

  // ---------------------------------------------------------------- os.path.splitext

  /** Some code point of `p[lo..hi]` is not a dot. */
  predicate HasNonDot(p: string, lo: int, hi: int)
    requires 0 <= lo <= hi <= |p|
  {
    exists k :: lo <= k < hi && p[k] != '.'
  }

  /**
   * Python's `os.path.splitext` on POSIX: the extension starts at the last '.'
   * after the last '/', provided some code point other than '.' precedes it in
   * that last component; otherwise there is no extension (".png" has none).
   */
  function SplitExt(p: string): (r: (string, string))
    ensures r.0 + r.1 == p
    ensures r.1 == [] || (r.1[0] == '.' && forall i :: 1 <= i < |r.1| ==> r.1[i] != '.' && r.1[i] != '/')
  {
    var sep := LastIndexOfChar(p, '/');
    var dot := LastIndexOfChar(p, '.');
    if dot > sep && HasNonDot(p, sep + 1, dot) then (p[..dot], p[dot..]) else (p, "")
  }

  /** A name with no '.' and no '/' has no extension. */
  lemma SplitExtNoDot(p: string)
    requires forall i :: 0 <= i < |p| ==> p[i] != '.' && p[i] != '/'
    ensures SplitExt(p) == (p, "")
  {
  }

  /** A name that is a non-empty dot-free stem followed by an extension splits there. */
  lemma SplitExtOfStemAndExt(b: string, e: string)
    requires b != [] && forall i :: 0 <= i < |b| ==> b[i] != '.' && b[i] != '/'
    requires e != [] && e[0] == '.' && forall i :: 1 <= i < |e| ==> e[i] != '.' && e[i] != '/'
    ensures SplitExt(b + e) == (b, e)
  {
    var p := b + e;
    assert forall i :: 0 <= i < |p| ==> p[i] != '/' by {
      forall i | 0 <= i < |p| ensures p[i] != '/' {
        if i < |b| { assert p[i] == b[i]; } else { assert p[i] == e[i - |b|]; }
      }
    }
    assert forall j :: |b| < j < |p| ==> p[j] != '.' by {
      forall j | |b| < j < |p| ensures p[j] != '.' {
        assert p[j] == e[j - |b|];
      }
    }
    assert p[|b|] == '.';
    var dot := LastIndexOfChar(p, '.');
    assert dot == |b|;
    assert p[0] == b[0];
    assert HasNonDot(p, 0, dot);
    assert p[..dot] == b && p[dot..] == e;
  }

  // ---------------------------------------------------------------- clean_filename

  /** Lines 11-17: lower-case, `[^a-zA-Z0-9]` to '_', collapse runs, strip '_' from both ends. */
  function CleanBase(name: string): (r: string)
    ensures IsSlugBody(r)
  {
    var lowered := Lower(name);
    var underscored := UnderscoreNonAsciiAlnum(lowered);
    LowerHasNoCapital(name);
    assert forall i :: 0 <= i < |underscored| ==> IsSlugChar(underscored[i]);
    var collapsed := Collapse(underscored);
    CollapseSlugChars(underscored);
    StripAllSlugBody(collapsed);
    StripAll(collapsed)
  }

  function CleanFilename(filename: string): string {
    var (name, ext) := SplitExt(filename);
    CleanBase(name) + ext
  }

  /**
   * The cleaned name is the original extension, unchanged, after a slug body:
   * `[a-z0-9_]` only, no "__", and no '_' at either end.
   */
  lemma CleanFilenameShape(filename: string)
    ensures var ext := SplitExt(filename).1; var r := CleanFilename(filename);
      EndsWith(r, ext) && IsSlugBody(r[..|r| - |ext|])
  {
    var ext := SplitExt(filename).1;
    var b := CleanBase(SplitExt(filename).0);
    assert (b + ext)[..|b|] == b;
    assert (b + ext)[|b|..] == ext;
  }

  lemma SlugBodyHasNoDot(b: string)
    requires IsSlugBody(b)
    ensures forall i :: 0 <= i < |b| ==> b[i] != '.' && b[i] != '/'
  {
    assert forall i :: 0 <= i < |b| ==> IsSlugChar(b[i]);
  }

  lemma CleanBaseOfSlugBody(b: string)
    requires IsSlugBody(b)
    ensures CleanBase(b) == b
  {
    assert forall i :: 0 <= i < |b| ==> IsSlugChar(b[i]);
    LowerOfSlugChars(b);
    SlugBodyFixed(b);
  }

  /**
   * Cleaning a cleaned name changes nothing, unless the stem cleaned away to
   * nothing while an extension was kept (see CleanFilenameNotIdempotent).
   */
  lemma CleanFilenameIdempotent(filename: string)
    requires CleanBase(SplitExt(filename).0) != [] || SplitExt(filename).1 == []
    ensures CleanFilename(CleanFilename(filename)) == CleanFilename(filename)
  {
    var (name, ext) := SplitExt(filename);
    var b := CleanBase(name);
    SlugBodyHasNoDot(b);
    if ext == [] {
      assert CleanFilename(filename) == b;
      SplitExtNoDot(b);
    } else {
      SplitExtOfStemAndExt(b, ext);
    }
    CleanBaseOfSlugBody(b);
  }

  lemma SplitExtBangs()
    ensures SplitExt("!!.png") == ("!!", ".png")
  {
    var p := "!!.png";
    assert forall i :: 0 <= i < |p| ==> p[i] != '/';
    assert LastIndexOfChar(p, '/') == -1;
    assert forall j :: 2 < j < |p| ==> p[j] != '.';
    assert p[2] == '.';
    assert LastIndexOfChar(p, '.') == 2;
    assert HasNonDot(p, 0, 2) by { assert p[0] != '.'; }
    assert p[..2] == "!!" && p[2..] == ".png";
  }

  lemma CleanBaseBangs()
    ensures CleanBase("!!") == ""
  {
    assert Lower("!!") == "!!" by {
      assert Lower("!!") == LowerChar('!') + Lower("!");
      assert Lower("!") == LowerChar('!') + Lower("");
    }
    assert UnderscoreNonAsciiAlnum("!!") == "__";
    assert Collapse("__") == "_";
  }

  lemma LowerDotPng()
    ensures Lower(".png") == ".png"
  {
    var e := ".png";
    assert LowerChar(e[0]) == [e[0]];
    assert forall i :: 1 <= i < |e| ==> IsLowerLetter(e[i]);
    LowerCharwise(e, e);
  }

  lemma UnderscoreDotPng()
    ensures UnderscoreNonAsciiAlnum(".png") == "_png"
  {
    var u := UnderscoreNonAsciiAlnum(".png");
    assert |u| == 4 && u[0] == '_' && u[1] == 'p' && u[2] == 'n' && u[3] == 'g';
  }

  lemma StripUnderscorePng()
    ensures StripAll(Collapse("_png")) == "png"
  {
    assert NoDoubleUnderscore("_png");
    CollapseNoRun("_png");
    assert StripLeading("_png") == StripLeading("_png"[1..]);
    assert "_png"[1..] == "png";
    assert StripTrailing("png") == "png";
  }

  lemma CleanBaseDotPng()
    ensures CleanBase(".png") == "png"
  {
    LowerDotPng();
    UnderscoreDotPng();
    StripUnderscorePng();
    CleanBaseSteps(".png");
  }

  lemma CleanBaseSteps(name: string)
    ensures CleanBase(name) == StripAll(Collapse(UnderscoreNonAsciiAlnum(Lower(name))))
  {
  }

  /** "!!.png" cleans to ".png", which has no extension in Python's sense and cleans to "png". */
  lemma CleanFilenameNotIdempotent()
    ensures CleanFilename("!!.png") == ".png"
    ensures CleanFilename(".png") == "png"
  {
    SplitExtBangs();
    CleanBaseBangs();
    assert SplitExt(".png") == (".png", "") by {
      var p := ".png";
      assert forall j :: 0 < j < |p| ==> p[j] != '.';
      assert LastIndexOfChar(p, '.') == 0;
    }
    CleanBaseDotPng();
  }

  /** "Team Logo!!.png" cleans to "team_logo.png". */
  lemma CleanFilenameTeamLogo()
    ensures CleanFilename("Team Logo!!.png") == "team_logo.png"
  {
    SplitTeamLogo();
    CleanBaseTeamLogo();
    TeamLogoPng();
    CleanFilenameOfParts("Team Logo!!.png", "Team Logo!!", ".png", "team_logo", "team_logo.png");
  }

  lemma SplitTeamLogo()
    ensures SplitExt("Team Logo!!.png") == ("Team Logo!!", ".png")
  {
    assert "Team Logo!!" + ".png" == "Team Logo!!.png";
    SplitExtOfStemAndExt("Team Logo!!", ".png");
  }

  lemma CleanBaseTeamLogo()
    ensures CleanBase("Team Logo!!") == "team_logo"
  {
    CleanBaseSteps("Team Logo!!");
    LowerTeamLogo();
    UnderscoreTeamLogo();
    CollapseTeamLogo();
    StripTeamLogo();
  }

  lemma LowerTeamLogo()
    ensures Lower("Team Logo!!") == "team logo!!"
  {
    var s, u := "Team Logo!!", "team logo!!";
    forall i | 0 <= i < |s| ensures LowerChar(s[i]) == [u[i]] {
      if i == 0 || i == 5 {
        assert IsUpperLetter(s[i]);
      } else {
        assert !IsUpperLetter(s[i]) && s[i] !in "ŞÇÜÖĞİ" && s[i] == u[i];
      }
    }
    LowerCharwise(s, u);
  }

  lemma UnderscoreTeamLogo()
    ensures UnderscoreNonAsciiAlnum("team logo!!") == "team_logo__"
  {
    assert "team" + (" " + ("logo" + "!!")) == "team logo!!";
    assert "team" + ("_" + ("logo" + "__")) == "team_logo__";
    UnderscoreWord("team");
    UnderscoreWord("logo");
    assert UnderscoreNonAsciiAlnum(" ") == "_";
    assert UnderscoreNonAsciiAlnum("!!") == "__";
    UnderscoreAppend("logo", "!!");
    UnderscoreAppend(" ", "logo" + "!!");
    UnderscoreAppend("team", " " + ("logo" + "!!"));
  }

  lemma CollapseTeamLogo()
    ensures Collapse("team_logo__") == "team_logo_"
  {
    assert "team_logo" + "__" == "team_logo__";
    assert "team_logo" + "_" == "team_logo_";
    assert NoDoubleUnderscore("team_logo");
    CollapseNoRun("team_logo");
    assert Collapse("__") == "_";
    CollapseAppend("team_logo", "__");
  }

  lemma StripTeamLogo()
    ensures StripAll("team_logo_") == "team_logo"
  {
    var s := "team_logo_";
    assert NoDoubleUnderscore(s);
    StripLeadingNoRun(s);
    StripTrailingNoRun(s);
    assert s[..|s| - 1] == "team_logo";
  }

  /** "__weird___name--.png" cleans to "weird_name.png". */
  lemma CleanFilenameWeirdName()
    ensures CleanFilename("__weird___name--.png") == "weird_name.png"
  {
    SplitWeirdName();
    CleanBaseWeirdName();
    WeirdNamePng();
    CleanFilenameOfParts("__weird___name--.png", "__weird___name--", ".png", "weird_name", "weird_name.png");
  }

  lemma SplitWeirdName()
    ensures SplitExt("__weird___name--.png") == ("__weird___name--", ".png")
  {
    assert "__weird___name--" + ".png" == "__weird___name--.png";
    SplitExtOfStemAndExt("__weird___name--", ".png");
  }

  lemma CleanBaseWeirdName()
    ensures CleanBase("__weird___name--") == "weird_name"
  {
    CleanBaseSteps("__weird___name--");
    LowerWeirdName();
    UnderscoreWeirdName();
    CollapseWeirdName();
    StripWeirdName();
  }

  lemma LowerWeirdName()
    ensures Lower("__weird___name--") == "__weird___name--"
  {
    var s := "__weird___name--";
    forall i | 0 <= i < |s| ensures LowerChar(s[i]) == [s[i]] {
      assert !IsUpperLetter(s[i]) && s[i] !in "ŞÇÜÖĞİ";
    }
    LowerCharwise(s, s);
  }

  lemma UnderscoreWeirdName()
    ensures UnderscoreNonAsciiAlnum("__weird___name--") == "__weird___name__"
  {
    var a, b := "__weird___name", "--";
    WeirdNameParts(a, b);
    WeirdPartSlug(a);
    UnderscoreWord(a);
    UnderscoreDashes(b);
    UnderscoreAppend(a, b);
  }

  lemma CollapseWeirdName()
    ensures Collapse("__weird___name__") == "_weird_name_"
  {
    var a, b := "__weird", "___name__";
    assert a + b == "__weird___name__";
    assert "_weird" + "_name_" == "_weird_name_";
    CollapseWeird();
    CollapseName();
    CollapseAppend(a, b);
  }

  lemma CollapseWeird()
    ensures Collapse("__weird") == "_weird"
  {
    assert "__weird"[1..] == "_weird";
    assert NoDoubleUnderscore("_weird");
    CollapseNoRun("_weird");
  }

  lemma CollapseName()
    ensures Collapse("___name__") == "_name_"
  {
    NameParts();
    CollapseLeadingName();
    assert Collapse("__") == "_";
    CollapseAppend("___name", "__");
  }

  lemma NameParts()
    ensures "___name" + "__" == "___name__" && "_name" + "_" == "_name_"
  {
  }

  lemma CollapseLeadingName()
    ensures Collapse("___name") == "_name"
  {
    assert "___name"[1..] == "__name" && "__name"[1..] == "_name";
    assert NoDoubleUnderscore("_name");
    CollapseNoRun("_name");
  }

  lemma StripWeirdName()
    ensures StripAll("_weird_name_") == "weird_name"
  {
    var s, t, u := "_weird_name_", "weird_name_", "weird_name";
    assert s == "_" + t && t == u + "_";
    assert StripLeading(s) == StripLeading(t) == t;
    assert StripTrailing(t) == StripTrailing(u) == u by {
      assert t[..|t| - 1] == u;
    }
  }

  lemma CleanFilenameOfParts(f: string, name: string, ext: string, base: string, r: string)
    requires SplitExt(f) == (name, ext) && CleanBase(name) == base && base + ext == r
    ensures CleanFilename(f) == r
  {
  }

  lemma TeamLogoPng()
    ensures "team_logo" + ".png" == "team_logo.png"
  {
  }

  lemma WeirdNamePng()
    ensures "weird_name" + ".png" == "weird_name.png"
  {
  }

  /** `UnderscoreNonAsciiAlnum` works code point by code point, so it distributes over `+`. */
  lemma UnderscoreAppend(a: string, b: string)
    ensures UnderscoreNonAsciiAlnum(a + b) == UnderscoreNonAsciiAlnum(a) + UnderscoreNonAsciiAlnum(b)
  {
    var ua, ub := UnderscoreNonAsciiAlnum(a), UnderscoreNonAsciiAlnum(b);
    var l, r := UnderscoreNonAsciiAlnum(a + b), ua + ub;
    assert |l| == |r|;
    forall i | 0 <= i < |l| ensures l[i] == r[i] {
      if i < |a| {
        assert (a + b)[i] == a[i] && r[i] == ua[i];
      } else {
        assert (a + b)[i] == b[i - |a|] && r[i] == ub[i - |a|];
      }
    }
  }

  lemma WeirdNameParts(a: string, b: string)
    requires a == "__weird___name" && b == "--"
    ensures a + b == "__weird___name--" && a + "__" == "__weird___name__"
  {
  }

  lemma UnderscoreDashes(b: string)
    requires b == "--"
    ensures UnderscoreNonAsciiAlnum(b) == "__"
  {
    assert b[1..] == "-";
  }

  lemma WeirdPartSlug(a: string)
    requires a == "__weird___name"
    ensures forall i :: 0 <= i < |a| ==> IsSlugChar(a[i])
  {
  }

  lemma UnderscoreWord(s: string)
    requires forall i :: 0 <= i < |s| ==> IsSlugChar(s[i])
    ensures UnderscoreNonAsciiAlnum(s) == s
  {
    UnderscoreOfSlugChars(s);
  }

  /** No cleaned name is the default logo's name: a cleaned stem never contains '-'. */
  lemma CleanFilenameIsNeverSentinel(filename: string)
    ensures CleanFilename(filename) != Sentinel
  {
    var parts := SplitExt(filename);
    var b := CleanBase(parts.0);
    assert forall i :: 0 <= i < |b| ==> IsSlugChar(b[i]);
    SlugAndExtensionNotSentinel(b, parts.1);
  }

  lemma SlugAndExtensionNotSentinel(b: string, ext: string)
    requires forall i :: 0 <= i < |b| ==> IsSlugChar(b[i])
    requires ext == [] || ext[0] == '.'
    ensures b + ext != Sentinel
  {
    var r := b + ext;
    if |b| > 7 {
      assert r[7] == b[7];
      assert Sentinel[7] == '-';
    } else if ext == [] {
      assert |r| <= 7;
    } else if |r| == |Sentinel| {
      assert r[|b|] == '.';
      assert forall k :: 0 <= k <= 7 ==> Sentinel[k] != '.';
    }
  }

  // ---------------------------------------------------------------- process_logos

  const Sentinel: string := "default-tournament-logo.png"

  /** `glob("*.png")` matches the name (case-sensitively) and it is not the default logo. */
  predicate Selected(name: string) {
    EndsWith(name, ".png") && name != Sentinel
  }

  function LogLine(name: string): string {
    "İşlendi: " + name + " -> " + CleanFilename(name)
  }

  /** The processed folder after copying `names` in order: a later copy overwrites an earlier one. */
  function CopyAll(names: seq<string>, source: Dir, dest: Dir): Dir
    requires forall i :: 0 <= i < |names| ==> names[i] in source
  {
    if names == [] then dest
    else
      var d := CopyAll(names[..|names| - 1], source, dest);
      var n := names[|names| - 1];
      if Selected(n) then d[CleanFilename(n) := source[n]] else d
  }

  /** The console log of copying `names`. */
  function Log(names: seq<string>): seq<string> {
    if names == [] then []
    else
      var n := names[|names| - 1];
      Log(names[..|names| - 1]) + (if Selected(n) then [LogLine(n)] else [])
  }

  /** The names the loop writes to. */
  function Targets(names: seq<string>): set<string> {
    if names == [] then {}
    else
      var n := names[|names| - 1];
      Targets(names[..|names| - 1]) + (if Selected(n) then {CleanFilename(n)} else {})
  }

  /** Every target is the cleaned name of some selected file. */
  lemma {:induction false} TargetsFromNames(names: seq<string>, k: string)
    requires k in Targets(names)
    ensures exists j :: 0 <= j < |names| && Selected(names[j]) && CleanFilename(names[j]) == k
  {
    var init := names[..|names| - 1];
    if k in Targets(init) {
      TargetsFromNames(init, k);
      var j :| 0 <= j < |init| && Selected(init[j]) && CleanFilename(init[j]) == k;
      assert names[j] == init[j];
    }
  }

  datatype Run = Run(processed: Dir, log: seq<string>)

  lemma CopySnoc(names: seq<string>, source: Dir, dest: Dir, i: int)
    requires forall i :: 0 <= i < |names| ==> names[i] in source
    requires 0 <= i < |names|
    ensures var d := CopyAll(names[..i], source, dest);
      CopyAll(names[..i + 1], source, dest)
        == if Selected(names[i]) then d[CleanFilename(names[i]) := source[names[i]]] else d
    ensures Log(names[..i + 1]) == Log(names[..i]) + if Selected(names[i]) then [LogLine(names[i])] else []
  {
    assert names[..i + 1][..i] == names[..i];
  }

  /** The body of the loop (lines 30-40) for one globbed name. */
  method CopyOne(dest: Dir, log: seq<string>, name: string, source: Dir) returns (dest': Dir, log': seq<string>)
    requires name in source
    ensures dest' == if Selected(name) then dest[CleanFilename(name) := source[name]] else dest
    ensures log' == log + if Selected(name) then [LogLine(name)] else []
  {
    dest', log' := dest, log;
    if name != Sentinel && EndsWith(name, ".png") {
      var newName := CleanFilename(name);
      dest' := dest[newName := source[name]];
      log' := log + ["İşlendi: " + name + " -> " + newName];
    }
  }

  /**
   * process_logos: `mkdir(exist_ok=True)` fails when the events folder itself is
   * missing (the exception escapes); otherwise each globbed name is copied.
   */
  method ProcessLogos(sourceExists: bool, listing: seq<string>, source: Dir, processed: Dir)
    returns (r: Result<Run, string>)
    requires forall i :: 0 <= i < |listing| ==> listing[i] in source
    ensures !sourceExists <==> r.Failure?
    ensures sourceExists ==> r == Success(Run(CopyAll(listing, source, processed), Log(listing)))
  {
    if !sourceExists {
      return Failure("FileNotFoundError");
    }
    var dest := processed;
    var log: seq<string> := [];
    var i := 0;
    while i < |listing|
      invariant 0 <= i <= |listing|
      invariant dest == CopyAll(listing[..i], source, processed)
      invariant log == Log(listing[..i])
    {
      CopySnoc(listing, source, processed, i);
      dest, log := CopyOne(dest, log, listing[i], source);
      i := i + 1;
    }
    assert listing[..i] == listing;
    return Success(Run(dest, log));
  }

  /** The processed folder gains exactly the cleaned names of the selected files. */
  lemma {:induction false} CopyAllKeys(names: seq<string>, source: Dir, dest: Dir)
    requires forall i :: 0 <= i < |names| ==> names[i] in source
    ensures CopyAll(names, source, dest).Keys == dest.Keys + Targets(names)
  {
    if names != [] {
      CopyAllKeys(names[..|names| - 1], source, dest);
    }
  }

  /** A selected file whose cleaned name no later selected file shares ends up in the folder. */
  lemma {:induction false} CopyAllLastWriteWins(names: seq<string>, source: Dir, dest: Dir, i: nat)
    requires forall j :: 0 <= j < |names| ==> names[j] in source
    requires i < |names| && Selected(names[i])
    requires forall j :: i < j < |names| && Selected(names[j]) ==> CleanFilename(names[j]) != CleanFilename(names[i])
    ensures CleanFilename(names[i]) in CopyAll(names, source, dest)
    ensures CopyAll(names, source, dest)[CleanFilename(names[i])] == source[names[i]]
  {
    var init := names[..|names| - 1];
    var last := names[|names| - 1];
    var c := CleanFilename(names[i]);
    if i < |names| - 1 {
      assert init[i] == names[i];
      forall j | i < j < |init| && Selected(init[j])
        ensures CleanFilename(init[j]) != CleanFilename(init[i])
      {
        assert init[j] == names[j];
      }
      CopyAllLastWriteWins(init, source, dest, i);
      assert Selected(last) ==> CleanFilename(last) != c;
    }
  }

  /** A name no selected file cleans to keeps whatever the folder had under it. */
  lemma {:induction false} CopyAllElsewhere(names: seq<string>, source: Dir, dest: Dir, k: string)
    requires forall j :: 0 <= j < |names| ==> names[j] in source
    requires k !in Targets(names)
    ensures (k in CopyAll(names, source, dest)) == (k in dest)
    ensures k in dest ==> CopyAll(names, source, dest)[k] == dest[k]
  {
    if names != [] {
      CopyAllElsewhere(names[..|names| - 1], source, dest, k);
    }
  }

  /** The default logo already in the processed folder, if any, is never overwritten. */
  lemma SentinelUntouched(names: seq<string>, source: Dir, dest: Dir)
    requires forall j :: 0 <= j < |names| ==> names[j] in source
    ensures (Sentinel in CopyAll(names, source, dest)) == (Sentinel in dest)
    ensures Sentinel in dest ==> CopyAll(names, source, dest)[Sentinel] == dest[Sentinel]
  {
    forall j | 0 <= j < |names| ensures CleanFilename(names[j]) != Sentinel {
      CleanFilenameIsNeverSentinel(names[j]);
    }
    if Sentinel in Targets(names) {
      TargetsFromNames(names, Sentinel);
    }
    CopyAllElsewhere(names, source, dest, Sentinel);
  }
}
