/**
 * Helpers of the Express backend (backend/server.js): the region guessed from
 * a tournament name, the minute offset read from a relative completion time
 * such as "2h 26m ago", and the test for the tournament logo files that the
 * handlers list from a directory.
 */
module ServerHelpers {
  import opened Text

  // ---------------------------------------------------------------- regions

  const AmericasKeys: seq<string> := ["americas", "north america", "brazil"]
  const EmeaKeys: seq<string> := ["emea", "europe", "turkey"]
  const PacificKeys: seq<string> := ["pacific", "asia", "japan"]
  const ChinaKeys: seq<string> := ["china"]

  /** The five answers `getRegionFromName` can give. */
  const Regions: set<string> := {"americas", "emea", "pacific", "china", "other"}

  /** `s` includes one of `keys`. */
  predicate MentionsAny(s: string, keys: seq<string>) {
    exists i :: 0 <= i < |keys| && Contains(s, keys[i])
  }

  lemma MentionsOneOf(s: string, keys: seq<string>)
    requires 1 <= |keys| <= 3
    ensures MentionsAny(s, keys) <==>
      Contains(s, keys[0]) || (|keys| > 1 && Contains(s, keys[1])) || (|keys| > 2 && Contains(s, keys[2]))
  {
    if MentionsAny(s, keys) {
      var i :| 0 <= i < |keys| && Contains(s, keys[i]);
      assert i == 0 || i == 1 || i == 2;
    }
  }

  /**
   * `getRegionFromName`: the first keyword group the lower-cased name mentions,
   * tried in the order americas, emea, pacific, china; 'other' when none.
   */
  function GetRegionFromName(name: string): (r: string)
    ensures r in Regions
    ensures r == "americas" <==> MentionsAny(Lower(name), AmericasKeys)
    ensures r == "emea" <==> !MentionsAny(Lower(name), AmericasKeys) && MentionsAny(Lower(name), EmeaKeys)
    ensures r == "pacific" <==>
      !MentionsAny(Lower(name), AmericasKeys) && !MentionsAny(Lower(name), EmeaKeys)
      && MentionsAny(Lower(name), PacificKeys)
    ensures r == "china" <==>
      !MentionsAny(Lower(name), AmericasKeys) && !MentionsAny(Lower(name), EmeaKeys)
      && !MentionsAny(Lower(name), PacificKeys) && MentionsAny(Lower(name), ChinaKeys)
  {
    var n := Lower(name);
    MentionsOneOf(n, AmericasKeys);
    MentionsOneOf(n, EmeaKeys);
    MentionsOneOf(n, PacificKeys);
    MentionsOneOf(n, ChinaKeys);
    if Contains(n, "americas") || Contains(n, "north america") || Contains(n, "brazil") then "americas"
    else if Contains(n, "emea") || Contains(n, "europe") || Contains(n, "turkey") then "emea"
    else if Contains(n, "pacific") || Contains(n, "asia") || Contains(n, "japan") then "pacific"
    else if Contains(n, "china") then "china"
    else "other"
  }

  /** The test ignores case: a name and its lower-cased form get the same region. */
  lemma RegionIgnoresCase(name: string)
    ensures GetRegionFromName(Lower(name)) == GetRegionFromName(name)
  {
    LowerIdempotent(name);
  }

  /** 'other' is exactly the names that mention no keyword of any group. */
  lemma OtherMeansNoKeyword(name: string)
    ensures GetRegionFromName(name) == "other" <==>
      !MentionsAny(Lower(name), AmericasKeys + EmeaKeys + PacificKeys + ChinaKeys)
  {
    var n := Lower(name);
    MentionsAnyAppend(n, AmericasKeys + EmeaKeys + PacificKeys, ChinaKeys);
    MentionsAnyAppend(n, AmericasKeys + EmeaKeys, PacificKeys);
    MentionsAnyAppend(n, AmericasKeys, EmeaKeys);
  }

  /** A keyword of `a + b` is a keyword of `a` or of `b`. */
  lemma MentionsAnyAppend(s: string, a: seq<string>, b: seq<string>)
    ensures MentionsAny(s, a + b) <==> MentionsAny(s, a) || MentionsAny(s, b)
  {
    if MentionsAny(s, a + b) {
      var i :| 0 <= i < |a + b| && Contains(s, (a + b)[i]);
      if i < |a| {
        assert (a + b)[i] == a[i];
      } else {
        assert (a + b)[i] == b[i - |a|];
      }
    }
    if MentionsAny(s, a) {
      var i :| 0 <= i < |a| && Contains(s, a[i]);
      assert (a + b)[i] == a[i];
    }
    if MentionsAny(s, b) {
      var i :| 0 <= i < |b| && Contains(s, b[i]);
      assert (a + b)[i + |a|] == b[i];
    }
  }

  // ---------------------------------------------------------------- relative completion times

  /** The end of the run of decimal digits starting at `i`. */
  function DigitRunEnd(s: string, i: nat): (j: nat)
    requires i <= |s|
    ensures i <= j <= |s|
    ensures forall k :: i <= k < j ==> IsDigit(s[k])
    ensures j == |s| || !IsDigit(s[j])
    decreases |s| - i
  {
    if i < |s| && IsDigit(s[i]) then DigitRunEnd(s, i + 1) else i
  }

  /**
   * The regular expression `(\d+)u` matches at position `i`: one or more digits
   * start there and the whole digit run is followed by `u` (for a letter `u`,
   * giving back digits never helps, since a digit is not `u`).
   */
  predicate UnitMatchAt(s: string, u: char, i: nat) {
    i < |s| && IsDigit(s[i]) && DigitRunEnd(s, i) < |s| && s[DigitRunEnd(s, i)] == u
  }

  /** The leftmost match of `(\d+)u` at or after `i`, or -1. */
  function FirstUnitMatch(s: string, u: char, i: nat): (r: int)
    requires i <= |s|
    ensures r == -1 || (i <= r < |s| && UnitMatchAt(s, u, r))
    ensures forall k :: i <= k < |s| && (r == -1 || k < r) ==> !UnitMatchAt(s, u, k)
    decreases |s| - i
  {
    if i == |s| then -1
    else if UnitMatchAt(s, u, i) then i
    else FirstUnitMatch(s, u, i + 1)
  }

  /** `parseInt` of a string of decimal digits. */
  function ParseDecimal(ds: string): nat
    requires forall k :: 0 <= k < |ds| ==> IsDigit(ds[k])
  {
    if ds == [] then 0
    else
      var d := ds[|ds| - 1];
      assert IsDigit(d);
      ParseDecimal(ds[..|ds| - 1]) * 10 + (d as int - '0' as int)
  }

  /**
   * The amount given for unit `u`: the digits captured by the first match of
   * `(\d+)u`, or 0 when there is none.
   */
  function UnitValue(s: string, u: char): (r: nat)
    ensures (forall k :: 0 <= k < |s| ==> !UnitMatchAt(s, u, k)) ==> r == 0
    ensures forall i :: 0 <= i < |s| && UnitMatchAt(s, u, i) && (forall k :: 0 <= k < i ==> !UnitMatchAt(s, u, k)) ==>
      r == ParseDecimal(s[i..DigitRunEnd(s, i)])
  {
    var i := FirstUnitMatch(s, u, 0);
    if i < 0 then 0 else ParseDecimal(s[i..DigitRunEnd(s, i)])
  }

  /** How many minutes before now `parseTimeCompleted` places a completion time. */
  function OffsetMinutes(s: string): nat {
    (UnitValue(s, 'd') * 24 + UnitValue(s, 'h')) * 60 + UnitValue(s, 'm')
  }

  /** A match that starts inside a digit run also matches one position to the left. */
  lemma MatchExtendsLeft(s: string, u: char, i: nat)
    requires 0 < i < |s|
    ensures UnitMatchAt(s, u, i) && IsDigit(s[i - 1]) ==> UnitMatchAt(s, u, i - 1)
  {
  }

  /** The first match starts a digit run, so the whole number is captured ("12d" gives 12, not 2). */
  lemma FirstMatchTakesWholeNumber(s: string, u: char)
    ensures var i := FirstUnitMatch(s, u, 0); i > 0 ==> !IsDigit(s[i - 1])
  {
    var i := FirstUnitMatch(s, u, 0);
    if i > 0 {
      MatchExtendsLeft(s, u, i);
    }
  }

  lemma ParseTwoDigits(a: char, b: char)
    requires IsDigit(a) && IsDigit(b)
    ensures ParseDecimal([a, b]) == (a as int - '0' as int) * 10 + (b as int - '0' as int)
  {
    assert [a, b][..1] == [a];
    assert [a][..0] == [];
    assert ParseDecimal([a]) == a as int - '0' as int;
  }

  /** "2h 26m ago" is 146 minutes old: no day part, two hours, twenty-six minutes. */
  lemma OffsetOfHoursAndMinutes()
    ensures OffsetMinutes("2h 26m ago") == 146
  {
    ExampleHours();
    ExampleMinutes();
    ExampleDays();
  }

  lemma ExampleRuns()
    ensures DigitRunEnd("2h 26m ago", 0) == 1 && DigitRunEnd("2h 26m ago", 3) == 5
    ensures DigitRunEnd("2h 26m ago", 4) == 5
  {
    var s := "2h 26m ago";
    assert DigitRunEnd(s, 5) == 5;
    assert DigitRunEnd(s, 4) == 5;
  }

  lemma ExampleHours()
    ensures UnitValue("2h 26m ago", 'h') == 2
  {
    var s := "2h 26m ago";
    ExampleRuns();
    assert UnitMatchAt(s, 'h', 0);
    assert s[0..1] == "2";
    assert [s[0]][..0] == [];
  }

  lemma ExampleMinutes()
    ensures UnitValue("2h 26m ago", 'm') == 26
  {
    var s := "2h 26m ago";
    ExampleRuns();
    assert forall k :: 0 <= k < 3 && k != 0 ==> !IsDigit(s[k]);
    assert UnitMatchAt(s, 'm', 3) && !UnitMatchAt(s, 'm', 0);
    assert s[3..5] == ['2', '6'];
    ParseTwoDigits('2', '6');
  }

  lemma ExampleDays()
    ensures UnitValue("2h 26m ago", 'd') == 0
  {
    var s := "2h 26m ago";
    ExampleRuns();
    assert forall k :: 0 <= k < |s| && k != 0 && k != 3 && k != 4 ==> !IsDigit(s[k]);
    assert !UnitMatchAt(s, 'd', 0) && !UnitMatchAt(s, 'd', 3) && !UnitMatchAt(s, 'd', 4);
  }


  // ---------------------------------------------------------------- tournament logo files

  /** The sentinel logo shipped with the front end, shown when no tournament logo is found. */
  const DefaultLogo: string := "default-tournament-logo.png"

  /** The directory entries the handlers treat as tournament logos. */
  predicate IsEventLogo(file: string) {
    EndsWith(file, ".png") && file != DefaultLogo
  }
}
