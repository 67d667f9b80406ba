/**
 * The `/api/events` handler of backend/server.js: one event per processed
 * tournament logo, with an id made from its name, the fixed date '2025' and
 * the region guessed from the name.
 */
module ServerEvents {
  import opened Text
  import opened Seqs
  import opened ServerHelpers
  import LogoMapping

  datatype Event = Event(id: string, name: string, logo: string, date: string, region: string)

  /** The characters an event id is made of: `[a-z0-9]` and '-'. */
  predicate IsIdChar(c: char) { IsLowerAlnum(c) || c == '-' }

  /** `replace(/[^a-z0-9]/g, '-')`: each other code point becomes one dash, with no collapsing. */
  function DashNonLowerAlnum(s: string): (r: string)
    ensures |r| == |s|
    ensures forall i :: 0 <= i < |s| ==> r[i] == if IsLowerAlnum(s[i]) then s[i] else '-'
  {
    if s == [] then [] else [if IsLowerAlnum(s[0]) then s[0] else '-'] + DashNonLowerAlnum(s[1..])
  }

  /** `name.toLowerCase().replace(/[^a-z0-9]/g, '-')`. */
  function EventId(name: string): (r: string)
    ensures |r| == |Lower(name)|
    ensures forall i :: 0 <= i < |r| ==> IsIdChar(r[i])
  {
    DashNonLowerAlnum(Lower(name))
  }

  /** The event listed for one logo file. */
  function EventOf(file: string): (e: Event)
    ensures e.logo == file && e.date == "2025"
  {
    var name := ReplaceFirst(file, ".png", "");
    Event(EventId(name), name, file, "2025", GetRegionFromName(name))
  }

  /** The response: an event for each logo file of the listing, in listing order. */
  function Events(listing: seq<string>): (r: seq<Event>)
    ensures |r| == |Filter(listing, IsEventLogo)|
    ensures forall i :: 0 <= i < |r| ==> r[i] == EventOf(Filter(listing, IsEventLogo)[i])
  {
    var files := Filter(listing, IsEventLogo);
    seq(|files|, i requires 0 <= i < |files| => EventOf(files[i]))
  }

  /** Lower-casing keeps the length of ASCII text. */
  lemma {:induction false} LowerAsciiLength(s: string)
    requires forall i :: 0 <= i < |s| ==> (s[i] as int) < 128
    ensures |Lower(s)| == |s|
  {
    if s != [] {
      LowerAsciiLength(s[1..]);
    }
  }

  /** For an ASCII name the id has exactly as many characters as the name. */
  lemma AsciiIdKeepsLength(name: string)
    requires forall i :: 0 <= i < |name| ==> (name[i] as int) < 128
    ensures |EventId(name)| == |name|
  {
    LowerAsciiLength(name);
  }

  lemma {:induction false} IdCharsAreLowerAlnumOrDash(s: string)
    requires forall i :: 0 <= i < |s| ==> IsIdChar(s[i])
    ensures Lower(s) == s
  {
    if s != [] {
      IdCharsAreLowerAlnumOrDash(s[1..]);
      assert IsIdChar(s[0]);
      assert LowerChar(s[0]) == [s[0]];
      assert s == [s[0]] + s[1..];
    }
  }

  /** An id is its own id: making an id twice changes nothing. */
  lemma EventIdIdempotent(name: string)
    ensures EventId(EventId(name)) == EventId(name)
  {
    var id := EventId(name);
    IdCharsAreLowerAlnumOrDash(id);
  }

  /** Runs of non-alphanumerics are not collapsed: "a  b" and "a b" get different ids. */
  lemma IdDoesNotCollapse()
    ensures EventId("a  b") == "a--b"
    ensures EventId("a b") == "a-b"
  {
    assert Lower("a  b") == "a  b";
    assert Lower("a b") == "a b";
  }

  /** Every event comes from a logo file of the listing, never from the sentinel, and has one of the five regions. */
  lemma EventsFromLogos(listing: seq<string>)
    ensures forall e :: e in Events(listing) ==>
      e.logo in listing && IsEventLogo(e.logo) && e.logo != DefaultLogo && e.region in Regions
  {
    FilterMembers(listing, IsEventLogo);
    forall e | e in Events(listing)
      ensures e.logo in listing && IsEventLogo(e.logo) && e.region in Regions
    {
      var i :| 0 <= i < |Events(listing)| && Events(listing)[i] == e;
      assert Filter(listing, IsEventLogo)[i] in Filter(listing, IsEventLogo);
    }
  }

  /** A file `stem.png` whose stem has no ".png" is listed under the name `stem`. */
  lemma NameOfLogo(stem: string)
    requires !Contains(stem, ".png")
    ensures EventOf(stem + ".png").name == stem
    ensures EventOf(stem + ".png").id == EventId(stem)
  {
    LogoMapping.FirstPngIsSuffix(stem);
    var s := stem + ".png";
    assert s[..|stem|] == stem;
    assert s[|stem| + 4..] == [];
  }
}
