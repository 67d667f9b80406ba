/**
 * backend/scripts/downloadEvents.js: walk the event listing page by page and
 * save each event's logo as `<safe name><extension>` in the events folder,
 * never replacing a file that is already there.
 *
 * The browser, the URL parser and the HTTPS download are foreign: the scraped
 * pages are the sequence `pages` (pages past its end are empty), `pathOf(url)`
 * is the pathname `new URL(url)` yields (None when the constructor throws), and
 * `fetch(url)` is the downloaded image (None when `downloadImage` rejects).
 */
module DownloadEvents {
  import opened Wrappers
  import opened Text
  import opened Files
  import opened NodePath

  datatype Event = Event(name: string, logo: string)

  // ---------------------------------------------------------------- derived names

  /** Line 58: protocol-relative URLs get "https:" in front. */
  function FixUrl(logo: string): (r: string)
    ensures StartsWith(logo, "//") ==> r == "https:" + logo && StartsWith(r, "https://")
    ensures !StartsWith(logo, "//") ==> r == logo
  {
    if StartsWith(logo, "//") then
      assert ("https:" + logo)[..8] == "https:" + logo[..2];
      "https:" + logo
    else logo
  }

  /** A protocol-relative URL always passes the `http` test of line 61. */
  lemma FixUrlOfProtocolRelative(logo: string)
    requires StartsWith(logo, "//")
    ensures StartsWith(FixUrl(logo), "http")
  {
    assert FixUrl(logo)[..4] == "http";
  }

  /** The class `[<>:"\/\\|?*]` of line 66. */
  predicate IsReserved(c: char) {
    c == '<' || c == '>' || c == ':' || c == '"' || c == '/' || c == '\\' || c == '|' || c == '?' || c == '*'
  }

  predicate NoReserved(s: string) {
    forall i :: 0 <= i < |s| ==> !IsReserved(s[i])
  }

  /**
   * Line 66: `replace(/[<>:"\/\\|?*]+/g, '-')`, each maximal run of reserved code
   * points becomes one '-': a reserved code point followed by another gives
   * nothing, the last one of a run gives the '-'.
   */
  function SafeName(s: string): (r: string)
    ensures NoReserved(r)
    ensures |r| <= |s|
  {
    if s == [] then []
    else if IsReserved(s[0]) && |s| > 1 && IsReserved(s[1]) then SafeName(s[1..])
    else [if IsReserved(s[0]) then '-' else s[0]] + SafeName(s[1..])
  }

  /** A name without reserved code points is kept as it is. */
  lemma {:induction false} SafeNameOfPlain(s: string)
    requires NoReserved(s)
    ensures SafeName(s) == s
  {
    if s != [] {
      assert NoReserved(s[1..]);
      SafeNameOfPlain(s[1..]);
      assert s == [s[0]] + s[1..];
    }
  }

  /** The replacement works piecewise across a boundary that is not inside a run. */
  lemma {:induction false} SafeNameAppend(a: string, b: string)
    requires a == [] || !IsReserved(a[|a| - 1])
    ensures SafeName(a + b) == SafeName(a) + SafeName(b)
  {
    if a == [] {
      assert a + b == b;
    } else {
      var ab := a + b;
      assert ab[0] == a[0];
      assert ab[1..] == a[1..] + b;
      if |a| > 1 {
        assert ab[1] == a[1];
      }
      SafeNameAppend(a[1..], b);
    }
  }

  /** A non-empty run of reserved code points in front of a plain code point becomes one '-'. */
  lemma {:induction false} SafeNameOfRun(run: string, b: string)
    requires run != [] && forall i :: 0 <= i < |run| ==> IsReserved(run[i])
    requires b == [] || !IsReserved(b[0])
    ensures SafeName(run + b) == "-" + SafeName(b)
  {
    var rb := run + b;
    assert rb[0] == run[0];
    assert rb[1..] == run[1..] + b;
    if |run| > 1 {
      assert rb[1] == run[1];
      SafeNameOfRun(run[1..], b);
    } else {
      assert run[1..] + b == b;
    }
  }

  /**
   * A maximal run of reserved code points between two plain neighbours becomes
   * exactly one '-', and the text around it is replaced independently.
   */
  lemma SafeNameRun(a: string, run: string, b: string)
    requires run != [] && forall i :: 0 <= i < |run| ==> IsReserved(run[i])
    requires a == [] || !IsReserved(a[|a| - 1])
    requires b == [] || !IsReserved(b[0])
    ensures SafeName(a + (run + b)) == SafeName(a) + ("-" + SafeName(b))
  {
    SafeNameOfRun(run, b);
    SafeNameAppend(a, run + b);
  }

  /** The safe name is its own safe name. */
  lemma SafeNameIdempotent(s: string)
    ensures SafeName(SafeName(s)) == SafeName(s)
  {
    SafeNameOfPlain(SafeName(s));
  }

  /** Line 67: the extension of the URL's path, ".png" when it has none. */
  function Extension(pathname: string): (r: string)
    ensures r != [] && r[0] == '.' && forall i :: 1 <= i < |r| ==> r[i] != '.' && r[i] != '/'
    ensures Extname(pathname) != "" ==> r == Extname(pathname)
    ensures Extname(pathname) == "" ==> r == ".png"
  {
    if Extname(pathname) == "" then ".png" else Extname(pathname)
  }

  /** Line 68. */
  function FileName(name: string, pathname: string): string {
    SafeName(name) + Extension(pathname)
  }

  /**
   * A file name never contains '/', so it names a file directly inside the folder;
   * the extension is the only part that may hold other reserved code points.
   */
  lemma FileNameHasNoSlash(name: string, pathname: string)
    ensures '/' !in FileName(name, pathname)
  {
    var s, e := SafeName(name), Extension(pathname);
    assert '/' !in s by {
      assert forall i :: 0 <= i < |s| ==> !IsReserved(s[i]);
    }
    assert '/' !in e by {
      assert forall i :: 0 <= i < |e| ==> e[i] != '/';
    }
    NotInAppend(s, e, '/');
  }

  lemma NotInAppend(s: string, e: string, c: char)
    requires c !in s && c !in e
    ensures c !in s + e
  {
    assert forall i :: 0 <= i < |s + e| ==> (s + e)[i] == if i < |s| then s[i] else e[i - |s|];
  }

  // ---------------------------------------------------------------- the scrape

  datatype Line =
    | Invalid(name: string)            // line 62
    | Exists(file: string)             // line 72
    | Downloading(file: string)        // line 76
    | Failed(file: string)             // line 81
    | PageFound(page: nat, count: nat) // line 55
    | Finished(pages: int, total: nat) // line 51

  /** The script's variables: the events folder, `totalDownloaded`, the console, and whether it threw. */
  datatype State = State(dir: Dir, total: nat, log: seq<Line>, crashed: bool)

  /** One iteration of the `for` loop (lines 57-83). */
  function EventStep(s: State, e: Event, pathOf: string -> Option<string>, fetch: string -> Option<Bytes>): State {
    if s.crashed then s
    else
      var url := FixUrl(e.logo);
      if !StartsWith(url, "http") then s.(log := s.log + [Invalid(e.name)])
      else match pathOf(url)
        case None => s.(crashed := true)
        case Some(p) => SaveStep(s, FileName(e.name, p), url, fetch)
  }

  /** Lines 69-82: skip an existing file, else download the image into it. */
  function SaveStep(s: State, f: string, url: string, fetch: string -> Option<Bytes>): State {
    if f in s.dir then s.(log := s.log + [Exists(f)])
    else match fetch(url)
      case Some(image) => s.(dir := s.dir[f := image], total := s.total + 1, log := s.log + [Downloading(f)])
      case None => s.(log := s.log + [Downloading(f)] + [Failed(f)])
  }

  /** The `for` loop over one page's events. */
  function PageStep(s: State, events: seq<Event>, pathOf: string -> Option<string>, fetch: string -> Option<Bytes>): State {
    if events == [] then s
    else EventStep(PageStep(s, events[..|events| - 1], pathOf, fetch), events[|events| - 1], pathOf, fetch)
  }

  /** The events scraped from page `n` (counted from 1). */
  function PageAt(pages: seq<seq<Event>>, n: nat): seq<Event> {
    if 1 <= n <= |pages| then pages[n - 1] else []
  }

  /** The `while (true)` loop (lines 34-86) from page `n` on. */
  function ScrapeFrom(s: State, pages: seq<seq<Event>>, n: nat, pathOf: string -> Option<string>, fetch: string -> Option<Bytes>): State
    decreases |pages| + 1 - n
  {
    if s.crashed then s
    else
      var events := PageAt(pages, n);
      if events == [] then s.(log := s.log + [Finished(n - 1, s.total)])
      else ScrapeFrom(PageStep(s.(log := s.log + [PageFound(n, |events|)]), events, pathOf, fetch), pages, n + 1, pathOf, fetch)
  }

  /** The first empty page at or after `n`. */
  function FirstEmpty(pages: seq<seq<Event>>, n: nat): (r: nat)
    ensures r >= n && PageAt(pages, r) == []
    ensures forall m :: n <= m < r ==> PageAt(pages, m) != []
    decreases |pages| + 1 - n
  {
    if PageAt(pages, n) == [] then n else FirstEmpty(pages, n + 1)
  }

  /** scrapeAllEventLogos: create the folder when missing, then visit pages 1, 2, ... */
  method ScrapeAllEventLogos(folder: Option<Dir>, pages: seq<seq<Event>>,
                             pathOf: string -> Option<string>, fetch: string -> Option<Bytes>)
    returns (s: State)
    ensures s == ScrapeFrom(State(folder.GetOr(map[]), 0, [], false), pages, 1, pathOf, fetch)
  {
    var pageNum := 1;
    s := State(folder.GetOr(map[]), 0, [], false);
    while true
      invariant pageNum >= 1
      invariant !s.crashed
      invariant ScrapeFrom(s, pages, pageNum, pathOf, fetch)
             == ScrapeFrom(State(folder.GetOr(map[]), 0, [], false), pages, 1, pathOf, fetch)
      decreases |pages| + 1 - pageNum
    {
      var events := if 1 <= pageNum <= |pages| then pages[pageNum - 1] else [];
      if |events| == 0 {
        s := s.(log := s.log + [Finished(pageNum - 1, s.total)]);
        return;
      }
      s := s.(log := s.log + [PageFound(pageNum, |events|)]);
      s := DownloadPage(s, events, pathOf, fetch);
      if s.crashed {
        return;
      }
      pageNum := pageNum + 1;
    }
  }

  /** The inner `for` loop; a thrown `new URL` ends the whole script. */
  method DownloadPage(s0: State, events: seq<Event>, pathOf: string -> Option<string>, fetch: string -> Option<Bytes>)
    returns (s: State)
    requires !s0.crashed
    ensures s == PageStep(s0, events, pathOf, fetch)
  {
    s := s0;
    var i := 0;
    while i < |events| && !s.crashed
      invariant 0 <= i <= |events|
      invariant s == PageStep(s0, events[..i], pathOf, fetch)
    {
      assert events[..i + 1][..i] == events[..i];
      s := DownloadEvent(s, events[i], pathOf, fetch);
      i := i + 1;
    }
    if s.crashed {
      assert events[..i] + events[i..] == events;
      CrashedStays(s, events[i..], pathOf, fetch);
      PageStepAppend(s0, events[..i], events[i..], pathOf, fetch);
    } else {
      assert events[..i] == events;
    }
  }

  /** The body of the `for` loop (lines 58-82). */
  method DownloadEvent(s0: State, event: Event, pathOf: string -> Option<string>, fetch: string -> Option<Bytes>)
    returns (s: State)
    requires !s0.crashed
    ensures s == EventStep(s0, event, pathOf, fetch)
  {
    s := s0;
    var logoUrl := if StartsWith(event.logo, "//") then "https:" + event.logo else event.logo;
    if !StartsWith(logoUrl, "http") {
      s := s.(log := s.log + [Invalid(event.name)]);
      return;
    }
    var pathname := pathOf(logoUrl);
    if pathname.None? {
      s := s.(crashed := true);
      return;
    }
    var filename := SafeName(event.name) + Extension(pathname.value);
    s := SaveLogo(s, filename, logoUrl, fetch);
  }

  /** Lines 69-82 of the loop body. */
  method SaveLogo(s0: State, filename: string, logoUrl: string, fetch: string -> Option<Bytes>) returns (s: State)
    ensures s == SaveStep(s0, filename, logoUrl, fetch)
  {
    s := s0;
    if filename in s.dir {
      s := s.(log := s.log + [Exists(filename)]);
      return;
    }
    s := s.(log := s.log + [Downloading(filename)]);
    var image := fetch(logoUrl);
    if image.Some? {
      s := s.(dir := s.dir[filename := image.value], total := s.total + 1);
    } else {
      s := s.(log := s.log + [Failed(filename)]);
    }
  }

  lemma {:induction false} CrashedStays(s: State, events: seq<Event>, pathOf: string -> Option<string>, fetch: string -> Option<Bytes>)
    requires s.crashed
    ensures PageStep(s, events, pathOf, fetch) == s
  {
    if events != [] {
      CrashedStays(s, events[..|events| - 1], pathOf, fetch);
    }
  }

  lemma {:induction false} PageStepAppend(s: State, a: seq<Event>, b: seq<Event>, pathOf: string -> Option<string>, fetch: string -> Option<Bytes>)
    ensures PageStep(s, a + b, pathOf, fetch) == PageStep(PageStep(s, a, pathOf, fetch), b, pathOf, fetch)
  {
    if b == [] {
      assert a + b == a;
    } else {
      assert (a + b)[..|a + b| - 1] == a + b[..|b| - 1];
      PageStepAppend(s, a, b[..|b| - 1], pathOf, fetch);
    }
  }

  // ---------------------------------------------------------------- what the scrape promises

  /**
   * Existing files are never re-downloaded or replaced, and the counter grows by
   * one exactly when a new file is written.
   */
  predicate Grows(s: State, s': State) {
    (forall k :: k in s.dir ==> k in s'.dir && s'.dir[k] == s.dir[k])
    && s.total <= s'.total
    && |s'.dir| == |s.dir| + (s'.total - s.total)
  }

  lemma EventStepGrows(s: State, e: Event, pathOf: string -> Option<string>, fetch: string -> Option<Bytes>)
    ensures Grows(s, EventStep(s, e, pathOf, fetch))
  {
    var s' := EventStep(s, e, pathOf, fetch);
    var url := FixUrl(e.logo);
    if !s.crashed && StartsWith(url, "http") && pathOf(url).Some? {
      var f := FileName(e.name, pathOf(url).value);
      if f !in s.dir && fetch(url).Some? {
        var d := s.dir[f := fetch(url).value];
        assert s'.dir == d && s'.total == s.total + 1;
        MapAddCardinality(s.dir, f, fetch(url).value);
      } else {
        assert s'.dir == s.dir && s'.total == s.total;
      }
    } else {
      assert s'.dir == s.dir && s'.total == s.total;
    }
  }

  lemma MapAddCardinality(d: Dir, f: string, v: Bytes)
    requires f !in d
    ensures |d[f := v]| == |d| + 1
  {
    assert d[f := v].Keys == d.Keys + {f};
  }

  lemma {:induction false} PageStepGrows(s: State, events: seq<Event>, pathOf: string -> Option<string>, fetch: string -> Option<Bytes>)
    ensures Grows(s, PageStep(s, events, pathOf, fetch))
  {
    if events != [] {
      var mid := PageStep(s, events[..|events| - 1], pathOf, fetch);
      PageStepGrows(s, events[..|events| - 1], pathOf, fetch);
      EventStepGrows(mid, events[|events| - 1], pathOf, fetch);
    }
  }

  lemma {:induction false} ScrapeGrows(s: State, pages: seq<seq<Event>>, n: nat, pathOf: string -> Option<string>, fetch: string -> Option<Bytes>)
    ensures Grows(s, ScrapeFrom(s, pages, n, pathOf, fetch))
    decreases |pages| + 1 - n
  {
    if !s.crashed && PageAt(pages, n) != [] {
      var s1 := s.(log := s.log + [PageFound(n, |PageAt(pages, n)|)]);
      PageStepGrows(s1, PageAt(pages, n), pathOf, fetch);
      ScrapeGrows(PageStep(s1, PageAt(pages, n), pathOf, fetch), pages, n + 1, pathOf, fetch);
    }
  }

  /** An event whose fixed-up URL does not start with "http" is skipped: nothing but the log changes. */
  lemma InvalidUrlSkipped(s: State, e: Event, pathOf: string -> Option<string>, fetch: string -> Option<Bytes>)
    requires !s.crashed && !StartsWith(FixUrl(e.logo), "http")
    ensures EventStep(s, e, pathOf, fetch) == s.(log := s.log + [Invalid(e.name)])
  {
  }

  /** A failed download is logged and the loop goes on with the next event. */
  lemma FailureContinues(s: State, e: Event, pathOf: string -> Option<string>, fetch: string -> Option<Bytes>)
    requires !s.crashed && StartsWith(FixUrl(e.logo), "http") && pathOf(FixUrl(e.logo)).Some?
    requires FileName(e.name, pathOf(FixUrl(e.logo)).value) !in s.dir
    requires fetch(FixUrl(e.logo)) == None
    ensures var s' := EventStep(s, e, pathOf, fetch);
      !s'.crashed && s'.dir == s.dir && s'.total == s.total
      && s'.log[|s'.log| - 1] == Failed(FileName(e.name, pathOf(FixUrl(e.logo)).value))
  {
  }

  /**
   * Without a thrown URL, the scrape ends with the line for the first empty page:
   * every page before it was visited and had events.
   */
  lemma {:induction false} ScrapeStopsAtFirstEmptyPage(s: State, pages: seq<seq<Event>>, n: nat,
                                                       pathOf: string -> Option<string>, fetch: string -> Option<Bytes>)
    requires n >= 1
    ensures var r := ScrapeFrom(s, pages, n, pathOf, fetch);
      !r.crashed ==> r.log != [] && r.log[|r.log| - 1] == Finished(FirstEmpty(pages, n) - 1, r.total)
    decreases |pages| + 1 - n
  {
    if !s.crashed && PageAt(pages, n) != [] {
      var s1 := s.(log := s.log + [PageFound(n, |PageAt(pages, n)|)]);
      ScrapeStopsAtFirstEmptyPage(PageStep(s1, PageAt(pages, n), pathOf, fetch), pages, n + 1, pathOf, fetch);
    }
  }
}
