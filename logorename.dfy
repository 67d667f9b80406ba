/**
 * frontend/scripts/normalize-logos.js and scripts/downloadTeamLogos.js (the same
 * loop): every `.png` / `.svg` of the team-logo folder is renamed to its
 * normalized name unless a file of that name already exists.
 */
module LogoRename {
  import opened Wrappers
  import opened Text
  import opened Files
  import opened NodePath
  import opened Normalization

  /** The lower-cased extension (line 21). */
  function Ext(file: string): string {
    Lower(Extname(file))
  }

  /** Only these extensions are touched (line 22). */
  predicate Considered(file: string) {
    Ext(file) == ".png" || Ext(file) == ".svg"
  }

  /** The normalized name (lines 23-24): the normalized stem, then the lower-cased extension. */
  function Target(file: string): string {
    Normalize(Basename(file, Ext(file))) + Ext(file)
  }

  /** The loop's decision for one name: None when the extension is not handled. */
  function Rename(file: string): Option<string> {
    if Considered(file) then Some(Target(file)) else None
  }

  lemma LowerOfExtension(e: string)
    requires e == ".png" || e == ".svg"
    ensures Lower(e) == e
    ensures |e| == 4 && e[0] == '.' && forall i :: 1 <= i < |e| ==> e[i] != '.' && e[i] != '/'
  {
    assert LowerChar(e[0]) == [e[0]];
    assert forall i :: 1 <= i < |e| ==> IsLowerLetter(e[i]);
    LowerCharwise(e, e);
  }

  /** A bare ".png" / ".svg" (the stem normalized away) is not handled by the loop. */
  lemma BareExtensionNotConsidered(e: string)
    requires e == ".png" || e == ".svg"
    ensures !Considered(e)
  {
    LowerOfExtension(e);
    ExtnameOfDotName(e);
    assert Lower("") == "";
  }

  /** A normalized stem with a handled extension is its own target. */
  lemma StemAndExtensionSettled(n: string, e: string)
    requires n != [] && AllLowerAlnum(n)
    requires e == ".png" || e == ".svg"
    ensures Considered(n + e) && Target(n + e) == n + e
  {
    LowerOfExtension(e);
    assert forall i :: 0 <= i < |n| ==> n[i] != '.' && n[i] != '/';
    ExtnameOfStemAndExt(n, e);
    assert Ext(n + e) == e;
    BasenameOfAppend(n, e);
    NormalizeFixedPoint(n);
  }

  /**
   * A normalized name is settled: it is its own target, or (when the stem
   * normalized to nothing, leaving ".png" or ".svg") no longer a handled file.
   */
  lemma TargetSettles(file: string)
    requires Considered(file)
    ensures !Considered(Target(file)) || Target(Target(file)) == Target(file)
  {
    var e := Ext(file);
    var n := Normalize(Basename(file, e));
    TargetParts(file, n, e);
    ConsideredExtension(file, e);
    PartsSettle(n, e);
  }

  lemma PartsSettle(n: string, e: string)
    requires AllLowerAlnum(n) && (e == ".png" || e == ".svg")
    ensures !Considered(n + e) || Target(n + e) == n + e
  {
    if n == [] {
      assert n + e == e;
      BareExtensionNotConsidered(e);
    } else {
      StemAndExtensionSettled(n, e);
    }
  }

  lemma TargetParts(file: string, n: string, e: string)
    requires e == Ext(file) && n == Normalize(Basename(file, e))
    ensures Target(file) == n + e && AllLowerAlnum(n)
  {
  }

  lemma ConsideredExtension(file: string, e: string)
    requires Considered(file) && e == Ext(file)
    ensures e == ".png" || e == ".svg"
  {
  }

  lemma RenameSettles()
    ensures Settles(Rename)
  {
    forall f | Rename(f).Some? ensures !Unsettled(Rename, Rename(f).value) {
      TargetSettles(f);
    }
  }

  // ---------------------------------------------------------------- the loop, for any naming

  /** A name the naming `rn` wants to move elsewhere. */
  predicate Unsettled(rn: string -> Option<string>, file: string) {
    rn(file).Some? && rn(file).value != file
  }

  /** Every name `rn` proposes is one it leaves alone. */
  ghost predicate Settles(rn: string -> Option<string>) {
    forall f :: rn(f).Some? ==> !Unsettled(rn, rn(f).value)
  }

  datatype Line =
    | Renamed(from: string, to: string)   // line 29
    | Skipped(target: string)             // line 31, a warning

  /** One iteration of `forEach` (lines 21-33) on the folder `d`. */
  function Step(rn: string -> Option<string>, d: Dir, file: string): Dir {
    if Unsettled(rn, file) && rn(file).value !in d && file in d then (d - {file})[rn(file).value := d[file]] else d
  }

  function StepLog(rn: string -> Option<string>, d: Dir, file: string): seq<Line> {
    if !Unsettled(rn, file) then []
    else if rn(file).value !in d then [Renamed(file, rn(file).value)]
    else [Skipped(rn(file).value)]
  }

  function RenameAll(rn: string -> Option<string>, names: seq<string>, dir: Dir): Dir {
    if names == [] then dir else Step(rn, RenameAll(rn, names[..|names| - 1], dir), names[|names| - 1])
  }

  function RenameLog(rn: string -> Option<string>, names: seq<string>, dir: Dir): seq<Line> {
    if names == [] then []
    else
      var init := names[..|names| - 1];
      RenameLog(rn, init, dir) + StepLog(rn, RenameAll(rn, init, dir), names[|names| - 1])
  }

  /** `readdirSync`: every entry once. */
  predicate IsListing(names: seq<string>, dir: Dir) {
    (forall i, j :: 0 <= i < j < |names| ==> names[i] != names[j])
    && (forall i :: 0 <= i < |names| ==> names[i] in dir)
    && (forall k :: k in dir ==> k in names)
  }

  /** No file is left that the loop would still rename. */
  predicate Stable(rn: string -> Option<string>, d: Dir) {
    forall k :: k in d && Unsettled(rn, k) ==> rn(k).value in d
  }

  predicate NotLater(names: seq<string>, i: int, k: string)
    requires 0 <= i <= |names|
  {
    forall m :: i <= m < |names| ==> names[m] != k
  }

  /** Where a handled file's content is: under its own name, or under its target. */
  predicate Kept(rn: string -> Option<string>, names: seq<string>, dir: Dir, i: int, d: Dir, j: int)
    requires 0 <= j < |names| && 0 <= i <= |names| && names[j] in dir
  {
    names[j] in d
    || (Unsettled(rn, names[j]) && rn(names[j]).value in d
        && d[rn(names[j]).value] == dir[names[j]] && NotLater(names, i, rn(names[j]).value))
  }

  /** What holds of the folder `d` once the first `i` entries have been handled. */
  predicate Progress(rn: string -> Option<string>, names: seq<string>, dir: Dir, i: int, d: Dir)
    requires 0 <= i <= |names| && IsListing(names, dir)
  {
    // entries not yet handled are still there, untouched
    (forall j :: i <= j < |names| ==> names[j] in d && d[names[j]] == dir[names[j]])
    // no original file was overwritten
    && (forall k :: k in dir && k in d ==> d[k] == dir[k])
    // an original file that disappeared was renamed
    && (forall k :: k in dir && k !in d ==> Unsettled(rn, k))
    // every new name is settled
    && (forall k :: k in d && k !in dir ==> !Unsettled(rn, k))
    && |d| == |dir|
    // handled and new files are settled or their target exists
    && (forall k :: k in d && Unsettled(rn, k) && NotLater(names, i, k) ==> rn(k).value in d)
    // each handled file's content survives
    && (forall j :: 0 <= j < i ==> Kept(rn, names, dir, i, d, j))
  }

  lemma MapMoveCardinality(d: Dir, e: string, n: string)
    requires e in d && n !in d
    ensures |(d - {e})[n := d[e]]| == |d|
  {
    var d1 := d - {e};
    assert d1.Keys == d.Keys - {e};
    assert |d.Keys - {e}| == |d.Keys| - 1;
    assert |d1| == |d1.Keys|;
    assert |d| == |d.Keys|;
  }

  /** The situation of ProgressStepRename: entry `i` is moved from `e` to `n`, giving `d'`. */
  predicate Moving(rn: string -> Option<string>, names: seq<string>, dir: Dir, i: int, d: Dir,
                   e: string, n: string, d': Dir)
  {
    IsListing(names, dir) && 0 <= i < |names| && Progress(rn, names, dir, i, d)
    && e == names[i] && Unsettled(rn, e) && n == rn(e).value && n !in d && !Unsettled(rn, n)
    && d' == (d - {e})[n := d[e]]
  }

  lemma MovedTargetIsNew(rn: string -> Option<string>, names: seq<string>, dir: Dir, i: int, d: Dir,
                         e: string, n: string, d': Dir)
    requires Moving(rn, names, dir, i, d, e, n, d')
    ensures n !in dir && n != e && NotLater(names, i + 1, n)
  {
  }

  lemma MovingKeepsFiles(rn: string -> Option<string>, names: seq<string>, dir: Dir, i: int, d: Dir,
                         e: string, n: string, d': Dir)
    requires Moving(rn, names, dir, i, d, e, n, d')
    ensures forall j :: i + 1 <= j < |names| ==> names[j] in d' && d'[names[j]] == dir[names[j]]
    ensures forall k :: k in dir && k in d' ==> d'[k] == dir[k]
    ensures forall k :: k in dir && k !in d' ==> Unsettled(rn, k)
    ensures forall k :: k in d' && k !in dir ==> !Unsettled(rn, k)
    ensures |d'| == |dir|
  {
    MovedTargetIsNew(rn, names, dir, i, d, e, n, d');
    MapMoveCardinality(d, e, n);
    forall j | i + 1 <= j < |names|
      ensures names[j] in d' && d'[names[j]] == dir[names[j]]
    {
      assert names[j] != e;
    }
  }

  lemma MovingKeepsTargets(rn: string -> Option<string>, names: seq<string>, dir: Dir, i: int, d: Dir,
                           e: string, n: string, d': Dir)
    requires Settles(rn) && Moving(rn, names, dir, i, d, e, n, d')
    ensures forall k :: k in d' && Unsettled(rn, k) && NotLater(names, i + 1, k) ==> rn(k).value in d'
  {
    forall k | k in d' && Unsettled(rn, k) && NotLater(names, i + 1, k)
      ensures rn(k).value in d'
    {
      assert k != n;
      assert k != e;
      assert NotLater(names, i, k);
      assert !Unsettled(rn, rn(k).value);
    }
  }

  lemma MovingKeepsContents(rn: string -> Option<string>, names: seq<string>, dir: Dir, i: int, d: Dir,
                            e: string, n: string, d': Dir, i': int)
    requires Moving(rn, names, dir, i, d, e, n, d') && i' == i + 1
    ensures forall j :: 0 <= j < i' ==> Kept(rn, names, dir, i', d', j)
  {
    MovedTargetIsNew(rn, names, dir, i, d, e, n, d');
    forall j | 0 <= j < i'
      ensures Kept(rn, names, dir, i', d', j)
    {
      if j < i {
        assert names[j] != e;
        assert Kept(rn, names, dir, i, d, j);
        if names[j] !in d {
          assert rn(names[j]).value != e;
          assert rn(names[j]).value != n;
        }
      }
    }
  }

  lemma ProgressStepRename(rn: string -> Option<string>, names: seq<string>, dir: Dir, i: int, d: Dir)
    requires Settles(rn) && IsListing(names, dir)
    requires 0 <= i < |names| && Progress(rn, names, dir, i, d)
    requires Unsettled(rn, names[i]) && rn(names[i]).value !in d
    ensures Progress(rn, names, dir, i + 1, Step(rn, d, names[i]))
  {
    var e := names[i];
    var n := rn(e).value;
    assert !Unsettled(rn, n);
    var d' := (d - {e})[n := d[e]];
    assert Step(rn, d, e) == d';
    assert Moving(rn, names, dir, i, d, e, n, d');
    MovingKeepsFiles(rn, names, dir, i, d, e, n, d');
    MovingKeepsTargets(rn, names, dir, i, d, e, n, d');
    MovingKeepsContents(rn, names, dir, i, d, e, n, d', i + 1);
  }

  lemma ProgressStepKeep(rn: string -> Option<string>, names: seq<string>, dir: Dir, i: int, d: Dir)
    requires IsListing(names, dir)
    requires 0 <= i < |names| && Progress(rn, names, dir, i, d)
    requires !(Unsettled(rn, names[i]) && rn(names[i]).value !in d)
    ensures Progress(rn, names, dir, i + 1, Step(rn, d, names[i]))
  {
    assert Step(rn, d, names[i]) == d;
    KeepingKeepsTargets(rn, names, dir, i, d);
    KeepingKeepsContents(rn, names, dir, i, d, i + 1);
  }

  lemma KeepingKeepsTargets(rn: string -> Option<string>, names: seq<string>, dir: Dir, i: int, d: Dir)
    requires IsListing(names, dir)
    requires 0 <= i < |names| && Progress(rn, names, dir, i, d)
    requires !(Unsettled(rn, names[i]) && rn(names[i]).value !in d)
    ensures forall k :: k in d && Unsettled(rn, k) && NotLater(names, i + 1, k) ==> rn(k).value in d
  {
    forall k | k in d && Unsettled(rn, k) && NotLater(names, i + 1, k)
      ensures rn(k).value in d
    {
      if k != names[i] {
        assert NotLater(names, i, k);
      }
    }
  }

  lemma KeepingKeepsContents(rn: string -> Option<string>, names: seq<string>, dir: Dir, i: int, d: Dir, i': int)
    requires IsListing(names, dir)
    requires 0 <= i < |names| && Progress(rn, names, dir, i, d) && i' == i + 1
    ensures forall j :: 0 <= j < i' ==> Kept(rn, names, dir, i', d, j)
  {
    forall j | 0 <= j < i'
      ensures Kept(rn, names, dir, i', d, j)
    {
      if j < i {
        assert Kept(rn, names, dir, i, d, j);
      }
    }
  }

  lemma ProgressAtStart(rn: string -> Option<string>, names: seq<string>, dir: Dir)
    requires IsListing(names, dir)
    ensures Progress(rn, names, dir, 0, dir)
  {
  }

  lemma ProgressStep(rn: string -> Option<string>, names: seq<string>, dir: Dir, i: int, d: Dir)
    requires Settles(rn) && IsListing(names, dir)
    requires 0 <= i < |names| && Progress(rn, names, dir, i, d)
    ensures Progress(rn, names, dir, i + 1, Step(rn, d, names[i]))
  {
    if Unsettled(rn, names[i]) && rn(names[i]).value !in d {
      ProgressStepRename(rn, names, dir, i, d);
    } else {
      ProgressStepKeep(rn, names, dir, i, d);
    }
  }

  lemma {:induction false} RenameProgress(rn: string -> Option<string>, names: seq<string>, dir: Dir, i: int)
    requires Settles(rn) && IsListing(names, dir)
    requires 0 <= i <= |names|
    ensures Progress(rn, names, dir, i, RenameAll(rn, names[..i], dir))
  {
    if i == 0 {
      assert names[..0] == [];
      ProgressAtStart(rn, names, dir);
    } else {
      RenameProgress(rn, names, dir, i - 1);
      RenameAllSnoc(rn, names, dir, i - 1);
      ProgressStep(rn, names, dir, i - 1, RenameAll(rn, names[..i - 1], dir));
    }
  }

  /**
   * What the loop promises of the folder `d` it leaves: as many files as
   * before, no existing file overwritten, every listed file's content under its
   * old name or its target, and nothing left to rename.
   */
  predicate WellRenamed(rn: string -> Option<string>, names: seq<string>, dir: Dir, d: Dir)
    requires IsListing(names, dir)
  {
    |d| == |dir|
    && (forall k :: k in dir && k in d ==> d[k] == dir[k])
    && (forall j :: 0 <= j < |names| ==>
          (names[j] in d
           || (rn(names[j]).Some? && rn(names[j]).value in d && d[rn(names[j]).value] == dir[names[j]])))
    && Stable(rn, d)
  }

  lemma ProgressAtEnd(rn: string -> Option<string>, names: seq<string>, dir: Dir, d: Dir)
    requires IsListing(names, dir) && Progress(rn, names, dir, |names|, d)
    ensures WellRenamed(rn, names, dir, d)
  {
    var n := |names|;
    forall j | 0 <= j < n
      ensures names[j] in d
        || (rn(names[j]).Some? && rn(names[j]).value in d && d[rn(names[j]).value] == dir[names[j]])
    {
      assert Kept(rn, names, dir, n, d, j);
    }
    forall k | k in d && Unsettled(rn, k) ensures rn(k).value in d {
      assert NotLater(names, n, k);
    }
  }

  lemma RenameAllOutcome(rn: string -> Option<string>, names: seq<string>, dir: Dir)
    requires Settles(rn) && IsListing(names, dir)
    ensures WellRenamed(rn, names, dir, RenameAll(rn, names, dir))
  {
    RenameProgress(rn, names, dir, |names|);
    assert names[..|names|] == names;
    ProgressAtEnd(rn, names, dir, RenameAll(rn, names, dir));
  }

  lemma RenameAllSnoc(rn: string -> Option<string>, names: seq<string>, dir: Dir, i: int)
    requires 0 <= i < |names|
    ensures RenameAll(rn, names[..i + 1], dir) == Step(rn, RenameAll(rn, names[..i], dir), names[i])
    ensures RenameLog(rn, names[..i + 1], dir)
      == RenameLog(rn, names[..i], dir) + StepLog(rn, RenameAll(rn, names[..i], dir), names[i])
  {
    assert names[..i + 1][..i] == names[..i];
  }

  /** Once nothing is left to rename, a second run changes nothing and renames nothing. */
  lemma {:induction false} SecondRunNoOp(rn: string -> Option<string>, names: seq<string>, d: Dir)
    requires Stable(rn, d) && forall i :: 0 <= i < |names| ==> names[i] in d
    ensures RenameAll(rn, names, d) == d
    ensures forall k :: 0 <= k < |RenameLog(rn, names, d)| ==> RenameLog(rn, names, d)[k].Skipped?
  {
    if names != [] {
      SecondRunNoOp(rn, names[..|names| - 1], d);
    }
  }

  lemma RenameOutcome(listing: seq<string>, dir: Dir)
    requires IsListing(listing, dir)
    ensures WellRenamed(Rename, listing, dir, RenameAll(Rename, listing, dir))
  {
    RenameSettles();
    RenameAllOutcome(Rename, listing, dir);
  }

  lemma StepToward(rn: string -> Option<string>, d: Dir, file: string, t: string)
    requires file in d && rn(file) == Some(t)
    ensures Step(rn, d, file) == if t != file && t !in d then (d - {file})[t := d[file]] else d
    ensures StepLog(rn, d, file) == if t == file then [] else if t !in d then [Renamed(file, t)] else [Skipped(t)]
  {
  }

  lemma StepIgnored(rn: string -> Option<string>, d: Dir, file: string)
    requires rn(file) == None
    ensures Step(rn, d, file) == d && StepLog(rn, d, file) == []
  {
  }

  lemma RenameOfConsidered(file: string, ext: string, normalized: string)
    requires ext == Lower(Extname(file)) && (ext == ".png" || ext == ".svg")
    requires normalized == Normalize(Basename(file, ext)) + ext
    ensures Rename(file) == Some(normalized)
  {
  }

  lemma RenameOfIgnored(file: string, ext: string)
    requires ext == Lower(Extname(file)) && ext != ".png" && ext != ".svg"
    ensures Rename(file) == None
  {
  }

  lemma StepKeepsOthers(rn: string -> Option<string>, d: Dir, file: string)
    ensures forall k :: k in d && k != file ==> k in Step(rn, d, file)
  {
  }

  /** The body of the forEach loop (lines 21-33) for one entry `file` of the folder `d`. */
  method RenameOne(d: Dir, file: string) returns (d': Dir, lines: seq<Line>)
    requires file in d
    ensures d' == Step(Rename, d, file) && lines == StepLog(Rename, d, file)
    ensures forall k :: k in d && k != file ==> k in d'
  {
    d', lines := d, [];
    var ext := Lower(Extname(file));
    if ext == ".png" || ext == ".svg" {
      var base := Basename(file, ext);
      var normalized := Normalize(base) + ext;
      RenameOfConsidered(file, ext, normalized);
      StepToward(Rename, d, file, normalized);
      if file != normalized {
        if normalized !in d {
          d' := (d - {file})[normalized := d[file]];
          lines := [Renamed(file, normalized)];
        } else {
          lines := [Skipped(normalized)];
        }
      }
    } else {
      RenameOfIgnored(file, ext);
      StepIgnored(Rename, d, file);
    }
    StepKeepsOthers(Rename, d, file);
  }

  /**
   * The forEach loop of both scripts, with the outcome of RenameAllOutcome for
   * the normalized naming.
   */
  method RenameLogos(listing: seq<string>, dir: Dir) returns (result: Dir, log: seq<Line>)
    requires IsListing(listing, dir)
    ensures result == RenameAll(Rename, listing, dir) && log == RenameLog(Rename, listing, dir)
    ensures WellRenamed(Rename, listing, dir, result)
  {
    result := dir;
    log := [];
    var i := 0;
    while i < |listing|
      invariant 0 <= i <= |listing|
      invariant result == RenameAll(Rename, listing[..i], dir)
      invariant log == RenameLog(Rename, listing[..i], dir)
      invariant forall j :: i <= j < |listing| ==> listing[j] in result
    {
      RenameAllSnoc(Rename, listing, dir, i);
      var lines;
      result, lines := RenameOne(result, listing[i]);
      log := log + lines;
      i := i + 1;
    }
    assert listing[..i] == listing;
    RenameOutcome(listing, dir);
  }

  // ---------------------------------------------------------------- the two scripts

  datatype Outcome = Done(dir: Dir, log: seq<Line>) | Exited(code: int, message: string)

  /**
   * scripts/downloadTeamLogos.js: a missing folder is reported and the process
   * exits with status 1 (lines 21-24).
   */
  method DownloadTeamLogos(dirExists: bool, listing: seq<string>, dir: Dir) returns (r: Outcome)
    requires dirExists ==> IsListing(listing, dir)
    ensures !dirExists ==> r == Exited(1, "Logos klasörü bulunamadı:")
    ensures dirExists ==> r == Done(RenameAll(Rename, listing, dir), RenameLog(Rename, listing, dir))
  {
    if !dirExists {
      return Exited(1, "Logos klasörü bulunamadı:");
    }
    var d, log := RenameLogos(listing, dir);
    return Done(d, log);
  }

  /**
   * frontend/scripts/normalize-logos.js has no check: `readdirSync` throws ENOENT
   * on a missing folder, the exception is uncaught and Node exits with status 1.
   */
  method NormalizeLogos(dirExists: bool, listing: seq<string>, dir: Dir) returns (r: Outcome)
    requires dirExists ==> IsListing(listing, dir)
    ensures !dirExists ==> r == Exited(1, "ENOENT")
    ensures dirExists ==> r == Done(RenameAll(Rename, listing, dir), RenameLog(Rename, listing, dir))
  {
    if !dirExists {
      return Exited(1, "ENOENT");
    }
    var d, log := RenameLogos(listing, dir);
    return Done(d, log);
  }
}
