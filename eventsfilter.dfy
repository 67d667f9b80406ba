/**
 * frontend/src/pages/Events.js: the tournament list page filters the fetched
 * events by a search text and a region chosen from a fixed list of options.
 */
module EventsFilter {
  import opened Text
  import opened Seqs
  import ServerHelpers

  /** An event as the backend lists it: its region comes from `getRegionFromName`. */
  datatype Event = Event(name: string, region: string)

  /** The values of the region menu (lines 12-18). */
  const RegionOptions: seq<string> := ["all", "americas", "emea", "pacific", "china"]

  /** `matchesSearch` and `matchesRegion` (lines 36-37). */
  predicate Shown(e: Event, searchTerm: string, regionFilter: string) {
    Contains(Lower(e.name), Lower(searchTerm))
    && (regionFilter == "all" || Lower(e.region) == Lower(regionFilter))
  }

  function ShownBy(searchTerm: string, regionFilter: string): Event -> bool {
    e => Shown(e, searchTerm, regionFilter)
  }

  /** `filteredEvents` (lines 35-39). */
  function FilteredEvents(events: seq<Event>, searchTerm: string, regionFilter: string): seq<Event> {
    Filter(events, ShownBy(searchTerm, regionFilter))
  }

  /**
   * An event is listed exactly when its lowercased name holds the lowercased
   * search text and its region equals the filter up to case (or the filter is
   * 'all'); the list is the fetched one with the others taken out, in order.
   */
  lemma FilteredEventsFacts(events: seq<Event>, more: seq<Event>, searchTerm: string, regionFilter: string)
    ensures forall e :: e in FilteredEvents(events, searchTerm, regionFilter) <==>
      e in events && Contains(Lower(e.name), Lower(searchTerm))
      && (regionFilter == "all" || Lower(e.region) == Lower(regionFilter))
    ensures FilteredEvents(events + more, searchTerm, regionFilter)
      == FilteredEvents(events, searchTerm, regionFilter) + FilteredEvents(more, searchTerm, regionFilter)
    ensures |FilteredEvents(events, searchTerm, regionFilter)| <= |events|
  {
    FilterMembers(events, ShownBy(searchTerm, regionFilter));
    FilterAppend(events, more, ShownBy(searchTerm, regionFilter));
  }

  lemma ContainsEmpty(s: string)
    ensures Contains(s, "")
  {
    assert OccursAt(s, "", 0);
  }

  /** An empty search with region 'all' keeps every event. */
  lemma NoFilterKeepsAll(events: seq<Event>)
    ensures FilteredEvents(events, "", "all") == events
  {
    forall e ensures Shown(e, "", "all") {
      ContainsEmpty(Lower(e.name));
    }
    FilterAll(events, ShownBy("", "all"));
  }

  /** Search text and region filter are both compared without regard to ASCII case. */
  lemma FilterIgnoresCase(events: seq<Event>, s1: string, s2: string, r1: string, r2: string)
    requires Lower(s1) == Lower(s2) && Lower(r1) == Lower(r2) && (r1 == "all" <==> r2 == "all")
    ensures FilteredEvents(events, s1, r1) == FilteredEvents(events, s2, r2)
  {
    FilterSame(events, ShownBy(s1, r1), ShownBy(s2, r2));
  }

  /**
   * The menu has no 'other', which `getRegionFromName` gives to a name with no
   * region keyword: an event of region 'other' is never listed under a region
   * option, only under 'all'.
   */
  lemma OtherOnlyUnderAll(e: Event, searchTerm: string, option: string)
    requires option in RegionOptions && option != "all"
    requires e.region == "other"
    ensures !Shown(e, searchTerm, option)
  {
    LowerOfLowerAlnum("other");
    OptionIsLower(option);
    assert option[0] != 'o';
  }

  lemma OptionIsLower(option: string)
    requires option in RegionOptions && option != "all"
    ensures Lower(option) == option && option != [] && option[0] != 'o'
  {
    var i :| 0 <= i < |RegionOptions| && RegionOptions[i] == option;
    assert i != 0;
    if i == 1 { LowerWord("americas"); }
    else if i == 2 { LowerWord("emea"); }
    else if i == 3 { LowerWord("pacific"); }
    else { LowerWord("china"); }
  }

  lemma LowerWord(w: string)
    requires forall i :: 0 <= i < |w| ==> IsLowerLetter(w[i])
    ensures Lower(w) == w
  {
    LowerOfLowerAlnum(w);
  }

  /** 'other' is one of the regions the backend gives and is missing from the menu. */
  lemma OtherMissingFromMenu()
    ensures "other" in ServerHelpers.Regions && "other" !in RegionOptions
  {
    assert "other"[0] == 'o';
    assert forall i :: 0 <= i < |RegionOptions| ==> RegionOptions[i][0] != 'o';
  }
}
