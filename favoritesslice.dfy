/** The favourites slice of the web store (frontend/src/store/slices/favoritesSlice.ts): a list of ids. */
module FavoritesSlice {
  import opened Seqs

  predicate NoDuplicates(items: seq<string>) {
    forall i, j :: 0 <= i < j < |items| ==> items[i] != items[j]
  }

  /** `addToFavorites` on the list: push the id unless it is already there. */
  function Added(items: seq<string>, id: string): seq<string> {
    if id in items then items else items + [id]
  }

  /** `removeFromFavorites` on the list: `filter(x => x !== id)`. */
  function Removed(items: seq<string>, id: string): seq<string> {
    Filter(items, (x: string) => x != id)
  }

  class FavoritesStore {
    var items: seq<string>

    constructor()
      ensures items == []
    {
      items := [];
    }

    method AddToFavorites(id: string)
      modifies this
      ensures items == Added(old(items), id)
    {
      if id !in items {
        items := items + [id];
      }
    }

    method RemoveFromFavorites(id: string)
      modifies this
      ensures items == Removed(old(items), id)
    {
      items := Filter(items, (x: string) => x != id);
    }

    /** `setFavorites` replaces the list wholesale, duplicates included. */
    method SetFavorites(ids: seq<string>)
      modifies this
      ensures items == ids
    {
      items := ids;
    }
  }

  /** Adding is idempotent; a new id goes at the end, after the earlier ids in their order. */
  lemma AddedFacts(items: seq<string>, id: string)
    ensures Added(Added(items, id), id) == Added(items, id)
    ensures id !in items ==> Added(items, id) == items + [id]
    ensures id in Added(items, id)
    ensures forall x :: x in Added(items, id) <==> x in items || x == id
  {
  }

  /** Removing takes out every occurrence of the id and keeps the others in order. */
  lemma RemovedFacts(items: seq<string>, id: string)
    ensures forall x :: x in Removed(items, id) <==> x in items && x != id
    ensures forall a, b :: Removed(a + b, id) == Removed(a, id) + Removed(b, id)
    ensures id !in items ==> Removed(items, id) == items
  {
    FilterMembers(items, (x: string) => x != id);
    forall a, b ensures Removed(a + b, id) == Removed(a, id) + Removed(b, id) {
      FilterAppend(a, b, (x: string) => x != id);
    }
    if id !in items {
      FilterAll(items, (x: string) => x != id);
    }
  }

  lemma {:induction false} FilterKeepsNoDuplicates(items: seq<string>, p: string -> bool)
    requires NoDuplicates(items)
    ensures NoDuplicates(Filter(items, p))
  {
    if items != [] {
      FilterKeepsNoDuplicates(items[1..], p);
      FilterMembers(items[1..], p);
      assert items[0] !in items[1..] by {
        assert forall j :: 0 < j < |items| ==> items[0] != items[j];
      }
    }
  }

  /** Adding and removing keep a duplicate-free list free of duplicates. */
  lemma NoDuplicatesKept(items: seq<string>, id: string)
    requires NoDuplicates(items)
    ensures NoDuplicates(Added(items, id))
    ensures NoDuplicates(Removed(items, id))
  {
    FilterKeepsNoDuplicates(items, (x: string) => x != id);
  }
}
