/**
 * backend/scripts/processEventLogos.js: resize every `.png` of the public events
 * folder into `processed/` under an underscore slug of its whole name. The image
 * library is a parameter `render` (None when it throws for that file).
 */
module ProcessEventLogos {
  import opened Wrappers
  import opened Text
  import opened Slugs
  import opened Files
  import CleanTournamentLogos

  /** Lines 22-25, applied to the whole file name, extension included. */
  function EventSlug(file: string): (r: string)
    ensures IsSlugBody(r)
  {
    var u := UnderscoreNonLowerAlnum(Lower(file));
    assert forall i :: 0 <= i < |u| ==> IsSlugChar(u[i]);
    var c := Collapse(u);
    CollapseSlugChars(u);
    StripOneSufficesAfterCollapse(c);
    StripAllSlugBody(c);
    StripOne(c)
  }

  /**
   * The JavaScript slug is the Python cleaner's stem cleaning applied to the whole
   * name: the single-step `/^_|_$/g` strip suffices because runs were collapsed.
   */
  lemma EventSlugIsCleanBaseOfWholeName(file: string)
    ensures EventSlug(file) == CleanTournamentLogos.CleanBase(file)
  {
    UnderscoreClassesAgreeAfterLower(file);
    StripOneSufficesAfterCollapse(Collapse(UnderscoreNonLowerAlnum(Lower(file))));
  }

  /** Slugging a slug changes nothing. */
  lemma EventSlugIdempotent(file: string)
    ensures EventSlug(EventSlug(file)) == EventSlug(file)
  {
    var s := EventSlug(file);
    assert forall i :: 0 <= i < |s| ==> IsSlugChar(s[i]);
    LowerOfSlugChars(s);
    SlugBodyFixed(s);
  }

  lemma StripOneKeepsPngEnd(t: string)
    requires EndsWith(t, "png")
    ensures EndsWith(StripOne(t), "png")
  {
    if t != [] && t[0] == '_' {
      assert t[1..][|t| - 1 - 3..] == t[|t| - 3..];
    }
  }

  lemma EventSlugSteps(file: string)
    ensures EventSlug(file) == StripOne(Collapse(UnderscoreNonLowerAlnum(Lower(file))))
  {
  }

  lemma UnderscorePngTail(lx: string)
    ensures UnderscoreNonLowerAlnum(lx + ".png") == (UnderscoreNonLowerAlnum(lx) + "_") + "png"
  {
  }

  lemma CollapsePngTail(t: string)
    ensures Collapse(t + "_" + "png") == Collapse(t + "_") + "png"
  {
    CollapseAppend(t + "_", "png");
    CollapseNoRun("png");
  }

  lemma LowerPngName(file: string)
    requires EndsWith(file, ".png")
    ensures Lower(file) == Lower(file[..|file| - 4]) + ".png"
  {
    var x := file[..|file| - 4];
    SplitAtSuffix(file, ".png");
    LowerAppend(x, ".png");
    CleanTournamentLogos.LowerDotPng();
  }

  /** A `.png` file's slug ends in "png" and contains no '.': the target has no extension. */
  lemma EventSlugOfPng(file: string)
    requires EndsWith(file, ".png")
    ensures EndsWith(EventSlug(file), "png")
    ensures forall i :: 0 <= i < |EventSlug(file)| ==> EventSlug(file)[i] != '.'
  {
    CleanTournamentLogos.SlugBodyHasNoDot(EventSlug(file));
    var lx := Lower(file[..|file| - 4]);
    LowerPngName(file);
    var ux := UnderscoreNonLowerAlnum(lx);
    UnderscorePngTail(lx);
    CollapsePngTail(ux);
    EventSlugSteps(file);
    StripOneKeepsPngEnd(Collapse(ux + "_") + "png");
  }

  // ---------------------------------------------------------------- the loop

  datatype LogEntry =
    | Processed(fileName: string)   // line 39
    | Failed(file: string)          // line 41
    | AllDone                       // line 46
    | Fatal                         // line 48

  function Entry(file: string, source: Dir, render: Bytes -> Option<Bytes>): LogEntry
    requires file in source
  {
    if render(source[file]).Some? then Processed(EventSlug(file)) else Failed(file)
  }

  /** What one iteration adds to the processed folder `d` for the entry `n`. */
  function RenderStep(d: Dir, n: string, source: Dir, render: Bytes -> Option<Bytes>): Dir
    requires n in source
  {
    if EndsWith(n, ".png") && render(source[n]).Some? then d[EventSlug(n) := render(source[n]).value] else d
  }

  /** The log lines of one iteration for the entry `n`. */
  function LogStep(n: string, source: Dir, render: Bytes -> Option<Bytes>): seq<LogEntry>
    requires n in source
  {
    if EndsWith(n, ".png") then [Entry(n, source, render)] else []
  }

  /** The processed folder after the loop has gone through `names`. */
  function RenderAll(names: seq<string>, source: Dir, dest: Dir, render: Bytes -> Option<Bytes>): Dir
    requires forall i :: 0 <= i < |names| ==> names[i] in source
  {
    if names == [] then dest
    else RenderStep(RenderAll(names[..|names| - 1], source, dest, render), names[|names| - 1], source, render)
  }

  /** The per-file log lines of the loop. */
  function RenderLog(names: seq<string>, source: Dir, render: Bytes -> Option<Bytes>): seq<LogEntry>
    requires forall i :: 0 <= i < |names| ==> names[i] in source
  {
    if names == [] then []
    else RenderLog(names[..|names| - 1], source, render) + LogStep(names[|names| - 1], source, render)
  }

  lemma RenderSnoc(names: seq<string>, source: Dir, dest: Dir, render: Bytes -> Option<Bytes>, i: int)
    requires forall i :: 0 <= i < |names| ==> names[i] in source
    requires 0 <= i < |names|
    ensures RenderAll(names[..i + 1], source, dest, render)
      == RenderStep(RenderAll(names[..i], source, dest, render), names[i], source, render)
    ensures RenderLog(names[..i + 1], source, render)
      == RenderLog(names[..i], source, render) + LogStep(names[i], source, render)
  {
    assert names[..i + 1][..i] == names[..i];
  }

  /** The body of the loop (lines 34-43) for one entry. */
  method ProcessOne(dest: Dir, log: seq<LogEntry>, file: string, source: Dir, render: Bytes -> Option<Bytes>)
    returns (dest': Dir, log': seq<LogEntry>)
    requires file in source
    ensures dest' == RenderStep(dest, file, source, render) && log' == log + LogStep(file, source, render)
  {
    dest', log' := dest, log;
    if EndsWith(file, ".png") {
      var fileName := EventSlug(file);
      var image := render(source[file]);
      if image.Some? {
        dest' := dest[fileName := image.value];
        log' := log + [Processed(fileName)];
      } else {
        log' := log + [Failed(file)];
      }
    }
  }

  /**
   * processEventLogos: create the target folder when missing, then render each
   * `.png`; a file the image library rejects is logged and the loop goes on. A
   * failure to read the source folder lands in the outer catch.
   */
  method Process(target: Option<Dir>, listing: Option<seq<string>>, source: Dir, render: Bytes -> Option<Bytes>)
    returns (dest: Dir, log: seq<LogEntry>)
    requires listing.Some? ==> forall i :: 0 <= i < |listing.value| ==> listing.value[i] in source
    ensures listing.None? ==> dest == target.GetOr(map[]) && log == [Fatal]
    ensures listing.Some? ==>
      dest == RenderAll(listing.value, source, target.GetOr(map[]), render)
      && log == RenderLog(listing.value, source, render) + [AllDone]
  {
    dest := if target.Some? then target.value else map[];
    if listing.None? {
      return dest, [Fatal];
    }
    var files := listing.value;
    ghost var start := dest;
    log := [];
    var i := 0;
    while i < |files|
      invariant 0 <= i <= |files|
      invariant dest == RenderAll(files[..i], source, start, render)
      invariant log == RenderLog(files[..i], source, render)
    {
      RenderSnoc(files, source, start, render, i);
      dest, log := ProcessOne(dest, log, files[i], source, render);
      i := i + 1;
    }
    assert files[..i] == files;
    log := log + [AllDone];
  }

  /**
   * One log line per `.png` file, in listing order, saying whether that file was
   * rendered: a failure never stops the files after it.
   */
  lemma {:induction false} RenderLogPerFile(names: seq<string>, source: Dir, render: Bytes -> Option<Bytes>)
    requires forall i :: 0 <= i < |names| ==> names[i] in source
    ensures var pngs := PngNames(names); var log := RenderLog(names, source, render);
      |log| == |pngs|
      && forall k :: 0 <= k < |pngs| ==> pngs[k] in source && log[k] == Entry(pngs[k], source, render)
  {
    if names != [] {
      RenderLogPerFile(names[..|names| - 1], source, render);
      PngNamesIn(names, source);
    }
  }

  lemma {:induction false} PngNamesIn(names: seq<string>, source: Dir)
    requires forall i :: 0 <= i < |names| ==> names[i] in source
    ensures forall k :: 0 <= k < |PngNames(names)| ==> PngNames(names)[k] in source
  {
    if names != [] {
      PngNamesIn(names[..|names| - 1], source);
    }
  }

  /** The names the loop writes: the slugs of the `.png` files that rendered. */
  function Written(names: seq<string>, source: Dir, render: Bytes -> Option<Bytes>): set<string>
    requires forall i :: 0 <= i < |names| ==> names[i] in source
  {
    if names == [] then {}
    else
      var n := names[|names| - 1];
      Written(names[..|names| - 1], source, render)
        + (if EndsWith(n, ".png") && render(source[n]).Some? then {EventSlug(n)} else {})
  }

  /** The processed folder gains exactly the slugs of the rendered files, and nothing else changes. */
  lemma {:induction false} RenderAllFrame(names: seq<string>, source: Dir, dest: Dir, render: Bytes -> Option<Bytes>)
    requires forall i :: 0 <= i < |names| ==> names[i] in source
    ensures RenderAll(names, source, dest, render).Keys == dest.Keys + Written(names, source, render)
    ensures forall k :: k in dest && k !in Written(names, source, render) ==>
      RenderAll(names, source, dest, render)[k] == dest[k]
  {
    if names != [] {
      RenderAllFrame(names[..|names| - 1], source, dest, render);
    }
  }

  /** Every slug written is extension-less, so it never has the form "<name>.png". */
  lemma {:induction false} WrittenHaveNoDot(names: seq<string>, source: Dir, render: Bytes -> Option<Bytes>)
    requires forall i :: 0 <= i < |names| ==> names[i] in source
    ensures forall w, i :: w in Written(names, source, render) && 0 <= i < |w| ==> w[i] != '.'
  {
    if names != [] {
      WrittenHaveNoDot(names[..|names| - 1], source, render);
      var n := names[|names| - 1];
      if EndsWith(n, ".png") { EventSlugOfPng(n); }
    }
  }
}
